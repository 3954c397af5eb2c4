/** The prefetch cache: for each mint, the account list to copy, kept from the best signal seen so far. */
module Prefetch {
  import opened Common
  import AccountLayout
  import Consensus
  import Wire

  /** The score of a consensus decision's own list, which is always written. */
  const FORCED_SCORE: nat := 1000

  datatype Request = Request(mint: Pubkey, tokenProgram: Pubkey, mirror: seq<Pubkey>, sourceWallet: Pubkey, signature: string, score: nat)

  datatype Prefetched = Prefetched(
    bondingCurve: Pubkey,
    associatedCurve: Pubkey,
    userAta: Pubkey,
    request: Request,
    createdAt: nat)

  type Cache = map<Pubkey, Prefetched>

  function Derived(d: AccountLayout.Derivation, user: Pubkey, r: Request, now: nat): Prefetched
  {
    var bondingCurve := d.pda(AccountLayout.BondingCurve, Some(r.mint));
    Prefetched(bondingCurve, d.ata(bondingCurve, r.mint, r.tokenProgram), d.ata(user, r.mint, r.tokenProgram), r, now)
  }

  /** A prefetched entry has the accounts that a native buy of the mint lists, our own token account among them. */
  lemma DerivedIsNative(d: AccountLayout.Derivation, user: Pubkey, r: Request, now: nat, curve: Wire.Curve)
    requires curve.creator.Some?
    ensures var entry := Derived(d, user, r, now);
      && entry.userAta == d.ata(user, r.mint, r.tokenProgram)
      && AccountLayout.NativeBuyKeys(d, user, r.mint, entry.userAta, r.tokenProgram, curve).value[2..6]
        == [r.mint, entry.bondingCurve, entry.associatedCurve, entry.userAta]
  {
    hide AccountLayout.FIXED;
  }

  /** A request gives way to an entry of its mint that scores more, unless it is forced. */
  predicate Refused(c: Cache, r: Request, force: bool)
  {
    r.mint in c && !force && c[r.mint].request.score > r.score
  }

  function AfterOffer(c: Cache, entry: Prefetched, force: bool): Cache
  {
    if Refused(c, entry.request, force) then c else c[entry.request.mint := entry]
  }

  predicate Expired(p: Prefetched, maxAgeSecs: nat, now: nat)
  {
    Elapsed(now, p.createdAt) / 1000 >= maxAgeSecs
  }

  function AfterCleanup(c: Cache, maxAgeSecs: nat, now: nat): Cache
  {
    map m | m in c && !Expired(c[m], maxAgeSecs, now) :: c[m]
  }

  class PrefetchCache {
    var cache: Cache

    constructor ()
      ensures cache == map[]
    {
      cache := map[];
    }

    /** The first access: the entry that stands in the way of a request, if there is one. */
    method Check(r: Request, force: bool) returns (existing: Option<Prefetched>)
      ensures existing == if Refused(cache, r, force) then Some(cache[r.mint]) else None
    {
      existing := None;
      if r.mint in cache && !force && cache[r.mint].request.score > r.score {
        existing := Some(cache[r.mint]);
      }
    }

    /** The second access. */
    method Insert(entry: Prefetched)
      modifies this
      ensures cache == old(cache)[entry.request.mint := entry]
    {
      cache := cache[entry.request.mint := entry];
    }

    /** A whole call with nothing in between its two accesses. */
    method PrefetchToken(d: AccountLayout.Derivation, user: Pubkey, r: Request, force: bool, now: nat) returns (result: Prefetched)
      modifies this
      ensures cache == AfterOffer(old(cache), Derived(d, user, r, now), force)
      ensures r.mint in cache && result == cache[r.mint]
    {
      var existing := Check(r, force);
      if existing.Some? {
        return existing.value;
      }
      result := Derived(d, user, r, now);
      Insert(result);
    }

    method Remove(mint: Pubkey)
      modifies this
      ensures cache == old(cache) - {mint}
    {
      cache := cache - {mint};
    }

    method Cleanup(maxAgeSecs: nat, now: nat)
      modifies this
      ensures cache == AfterCleanup(old(cache), maxAgeSecs, now)
      ensures forall m | m in old(cache) :: m !in cache <==> Elapsed(now, old(cache)[m].createdAt) >= 1000 * maxAgeSecs
    {
      var rest := cache.Keys;
      while rest != {}
        invariant rest <= old(cache).Keys
        invariant cache == map m | m in old(cache) && (m in rest || !Expired(old(cache)[m], maxAgeSecs, now)) :: old(cache)[m]
        decreases |rest|
      {
        var mint :| mint in rest;
        if Elapsed(now, cache[mint].createdAt) / 1000 >= maxAgeSecs {
          cache := cache - {mint};
        }
        rest := rest - {mint};
      }
    }
  }

  // ---- Runs: the check and the insert of a call are two accesses, and calls of several tasks interleave ----

  /** An entry whose check is behind it. */
  datatype Pending = Pending(entry: Prefetched, force: bool)

  datatype State = State(cache: Cache, pending: map<nat, Pending>)

  datatype Event =
    | Check(who: nat, entry: Prefetched, force: bool)
    | Write(who: nat)
    | Drop(mint: Pubkey)
    | Cleanup(maxAgeSecs: nat, now: nat)

  /** One access; a task checks only when it has nothing left to insert, and inserts only what has passed its check. */
  function Step(s: State, e: Event): State
  {
    match e
    case Check(who, entry, force) =>
      if who in s.pending || Refused(s.cache, entry.request, force) then s
      else s.(pending := s.pending[who := Pending(entry, force)])
    case Write(who) =>
      if who !in s.pending then s
      else State(s.cache[s.pending[who].entry.request.mint := s.pending[who].entry], s.pending - {who})
    case Drop(mint) => s.(cache := s.cache - {mint})
    case Cleanup(maxAgeSecs, now) => s.(cache := AfterCleanup(s.cache, maxAgeSecs, now))
  }

  function Run(s: State, events: seq<Event>): State
    decreases |events|
  {
    if events == [] then s else Step(Run(s, events[..|events| - 1]), events[|events| - 1])
  }

  const EMPTY: State := State(map[], map[])

  /** With nothing in between, the two accesses make the whole offer. */
  lemma UndisturbedOffer(s: State, who: nat, entry: Prefetched, force: bool)
    requires who !in s.pending
    ensures Step(Step(s, Check(who, entry, force)), Write(who)) == s.(cache := AfterOffer(s.cache, entry, force))
  {
    assert s.pending[who := Pending(entry, force)] - {who} == s.pending;
  }

  /** The latest of the best-scoring entries. */
  ghost predicate IsLatestBest(offered: seq<Prefetched>, p: Prefetched)
  {
    exists k :: 0 <= k < |offered| && offered[k] == p && BestUpTo(offered, k)
  }

  ghost predicate BestUpTo(offered: seq<Prefetched>, k: nat)
    requires k < |offered|
  {
    && (forall j | 0 <= j < |offered| :: offered[j].request.score <= offered[k].request.score)
    && (forall j | k < j < |offered| :: offered[j].request.score < offered[k].request.score)
  }

  /**
   * What has been offered for a mint since it was last forced, dropped or swept out because its best entry had
   * expired: entries turned away count when they are checked, the others when they are inserted.
   */
  ghost function OfferedSince(events: seq<Event>, mint: Pubkey): seq<Prefetched>
    decreases |events|
  {
    if events == [] then [] else
    var init := events[..|events| - 1];
    var before, s := OfferedSince(init, mint), Run(EMPTY, init);
    match events[|events| - 1]
    case Check(who, entry, force) =>
      if who !in s.pending && entry.request.mint == mint && Refused(s.cache, entry.request, force)
      then before + [entry] else before
    case Write(who) =>
      if who !in s.pending || s.pending[who].entry.request.mint != mint then before
      else if s.pending[who].force then [s.pending[who].entry] else before + [s.pending[who].entry]
    case Drop(dropped) => if dropped == mint then [] else before
    case Cleanup(maxAgeSecs, now) =>
      if exists p :: IsLatestBest(before, p) && Expired(p, maxAgeSecs, now) then [] else before
  }

  /** An insert that its check would turn away by now: a better entry came in between. */
  predicate Overtaken(s: State, e: Event)
  {
    && e.Write? && e.who in s.pending
    && Refused(s.cache, s.pending[e.who].entry.request, s.pending[e.who].force)
  }

  lemma LatestBestIsUnique(offered: seq<Prefetched>, p: Prefetched, q: Prefetched)
    requires IsLatestBest(offered, p) && IsLatestBest(offered, q)
    ensures p == q
  {
    var i :| 0 <= i < |offered| && offered[i] == p && BestUpTo(offered, i);
    var j :| 0 <= j < |offered| && offered[j] == q && BestUpTo(offered, j);
    assert i >= j && j >= i;
  }

  lemma OfferMovesTheBest(offered: seq<Prefetched>, best: Prefetched, entry: Prefetched)
    requires IsLatestBest(offered, best)
    ensures IsLatestBest(offered + [entry], if best.request.score > entry.request.score then best else entry)
  {
    var k :| 0 <= k < |offered| && offered[k] == best && BestUpTo(offered, k);
    var all := offered + [entry];
    var k' := if best.request.score > entry.request.score then k else |offered|;
    assert BestUpTo(all, k');
  }

  /** An unforced insert keeps the best entry in the cache exactly when it has not been overtaken. */
  lemma InsertKeepsBestIff(s: State, who: nat, offered: seq<Prefetched>)
    requires who in s.pending && !s.pending[who].force
    requires var mint := s.pending[who].entry.request.mint; mint in s.cache && IsLatestBest(offered, s.cache[mint])
    ensures var entry := s.pending[who].entry;
      IsLatestBest(offered + [entry], Step(s, Write(who)).cache[entry.request.mint]) <==> !Overtaken(s, Write(who))
  {
    var entry := s.pending[who].entry;
    var best := s.cache[entry.request.mint];
    OfferMovesTheBest(offered, best, entry);
    if IsLatestBest(offered + [entry], entry) {
      LatestBestIsUnique(offered + [entry], entry, if best.request.score > entry.request.score then best else entry);
    }
  }

  ghost predicate NoneOvertaken(events: seq<Event>)
  {
    forall n | 0 <= n < |events| :: !Overtaken(Run(EMPTY, events[..n]), events[n])
  }

  /**
   * In every run without an overtaken insert the cache holds, for each mint, the latest of the best-scoring
   * entries offered since it was last reset.
   */
  lemma {:induction false} CacheIsLatestBest(events: seq<Event>, mint: Pubkey)
    requires NoneOvertaken(events)
    ensures var offered := OfferedSince(events, mint);
      var c := Run(EMPTY, events).cache;
      (mint in c <==> offered != []) && (mint in c ==> IsLatestBest(offered, c[mint]))
    decreases |events|
  {
    if events != [] {
      var init, last := events[..|events| - 1], events[|events| - 1];
      forall n | 0 <= n < |init| ensures !Overtaken(Run(EMPTY, init[..n]), init[n]) {
        assert init[..n] == events[..n];
      }
      CacheIsLatestBest(init, mint);
      var before, s := OfferedSince(init, mint), Run(EMPTY, init);
      match last
      case Drop(_) =>
      case Check(who, entry, force) =>
        if OfferedSince(events, mint) != before {
          OfferMovesTheBest(before, s.cache[mint], entry);
        }
      case Write(who) =>
        assert !Overtaken(s, last);
        if who in s.pending && s.pending[who].entry.request.mint == mint {
          WriteKeepsBest(s, who, before, mint);
        }
      case Cleanup(maxAgeSecs, now) =>
        if mint in s.cache {
          forall p | IsLatestBest(before, p) ensures p == s.cache[mint] {
            LatestBestIsUnique(before, p, s.cache[mint]);
          }
        }
    }
  }

  lemma WriteKeepsBest(s: State, who: nat, before: seq<Prefetched>, mint: Pubkey)
    requires who in s.pending && s.pending[who].entry.request.mint == mint && !Overtaken(s, Write(who))
    requires (mint in s.cache <==> before != []) && (mint in s.cache ==> IsLatestBest(before, s.cache[mint]))
    ensures IsLatestBest(if s.pending[who].force then [s.pending[who].entry] else before + [s.pending[who].entry], s.pending[who].entry)
  {
    var entry := s.pending[who].entry;
    if s.pending[who].force || before == [] {
      assert [entry][0] == entry && BestUpTo([entry], 0);
      assert before == [] ==> before + [entry] == [entry];
    } else {
      OfferMovesTheBest(before, s.cache[mint], entry);
    }
  }

  // ---- Scores ----

  function SignalQuality(hasInstruction: bool, hasAccounts: bool, hasSolAmount: bool, preExecution: bool): (score: nat)
    ensures score <= 15
    ensures score >= 8 <==> hasInstruction
    ensures score % 8 >= 4 <==> hasAccounts
    ensures score % 4 >= 2 <==> hasSolAmount
    ensures score % 2 == 1 <==> !preExecution
  {
    (if hasInstruction then 8 else 0) + (if hasAccounts then 4 else 0) + (if hasSolAmount then 2 else 0)
    + (if preExecution then 0 else 1)
  }

  /** A trade is scored for prefetching as its signal is for consensus. */
  lemma SameScoreAsConsensus(s: Consensus.BuySignal)
    ensures Consensus.Score(s)
      == SignalQuality(|s.instructionData| >= 24, s.instructionAccounts != [], s.lamports > 0, s.preExecution)
  {
  }

  // ---- The entry of a consensus decision ----

  predicate Holds(s: State, entry: Prefetched)
  {
    entry.request.mint in s.cache && s.cache[entry.request.mint] == entry
  }

  /** The task has checked the forced entry and not inserted it yet. */
  predicate ForcedSince(s: State, events: seq<Event>, who: nat, p: Prefetched)
  {
    exists c | 0 <= c < |events| :: ForcedAt(s, events, c, who, p)
  }

  predicate ForcedAt(s: State, events: seq<Event>, c: nat, who: nat, p: Prefetched)
    requires c < |events|
  {
    events[c] == Check(who, p, true) && who !in Run(s, events[..c]).pending && Write(who) !in events[c + 1..]
  }

  /**
   * The events that take a forced entry away: a drop, a cleanup after its time, another forced entry, or the insert
   * of an entry whose check was already past when the forced one was written.
   */
  predicate Displaces(s: State, events: seq<Event>, k: nat, entry: Prefetched)
    requires k < |events|
  {
    var mint := entry.request.mint;
    match events[k]
    case Check(_, _, _) => false
    case Write(who) =>
      || (who in s.pending && s.pending[who].entry.request.mint == mint && s.pending[who].entry != entry && Write(who) !in events[..k])
      || (exists e | e in events[..k] :: e.Check? && e.entry.request.mint == mint && e.entry != entry && ForcedSince(s, events[..k], who, e.entry))
    case Drop(dropped) => dropped == mint
    case Cleanup(maxAgeSecs, now) => Expired(entry, maxAgeSecs, now)
  }

  /** Checks that are not forced are those of trades, which score at most 15. */
  predicate TradesScoreLow(events: seq<Event>)
  {
    forall e | e in events && e.Check? && !e.force :: e.entry.request.score <= 15
  }

  lemma {:induction false} PendingStays(s: State, events: seq<Event>, who: nat)
    requires who in s.pending && Write(who) !in events
    ensures var t := Run(s, events); who in t.pending && t.pending[who] == s.pending[who]
    decreases |events|
  {
    if events != [] {
      PendingStays(s, events[..|events| - 1], who);
    }
  }

  lemma {:induction false} ForcedIsPending(s: State, events: seq<Event>, c: nat, who: nat, p: Prefetched)
    requires c < |events| && ForcedAt(s, events, c, who, p)
    ensures var t := Run(s, events); who in t.pending && t.pending[who] == Pending(p, true)
    decreases |events|
  {
    var n := |events| - 1;
    if c < n {
      AroundIn(events, n, c);
      ForcedIsPending(s, events[..n], c, who, p);
    }
  }

  lemma AroundIn(events: seq<Event>, n: nat, c: nat)
    requires c < n && |events| == n + 1
    ensures events[..n][..c] == events[..c] && events[c + 1..] == events[..n][c + 1..] + [events[n]]
  {
    var before, after := events[..n][c + 1..], events[c + 1..];
    assert |after| == |before| + 1;
    assert forall i | 0 <= i < |before| :: after[i] == events[c + 1 + i] == before[i];
  }

  /** Where a pending insert for the mint comes from, as long as the forced entry is in place. */
  predicate KnownPending(s: State, events: seq<Event>, who: nat, p: Pending)
  {
    (who in s.pending && s.pending[who] == p && Write(who) !in events) || (p.force && ForcedSince(s, events, who, p.entry))
  }

  lemma KnownPendingLonger(s: State, events: seq<Event>, who: nat, p: Pending)
    requires events != [] && KnownPending(s, events[..|events| - 1], who, p) && events[|events| - 1] != Write(who)
    ensures KnownPending(s, events, who, p)
  {
    var n := |events| - 1;
    assert events == events[..n] + [events[n]];
    if c :| 0 <= c < n && ForcedAt(s, events[..n], c, who, p.entry) {
      AroundIn(events, n, c);
      assert ForcedAt(s, events, c, who, p.entry);
    }
  }

  /** While the forced entry is in place, only forced checks of its mint are passed. */
  lemma {:induction false} ForcedEntryStays(s: State, entry: Prefetched, events: seq<Event>)
    requires entry.request.score == FORCED_SCORE && Holds(s, entry) && TradesScoreLow(events)
    requires forall k | 0 <= k < |events| :: !Displaces(s, events, k, entry)
    ensures var t := Run(s, events);
      Holds(t, entry) && forall who | who in t.pending && t.pending[who].entry.request.mint == entry.request.mint ::
        KnownPending(s, events, who, t.pending[who])
    decreases |events|
  {
    if events != [] {
      var n := |events| - 1;
      var init, last := events[..n], events[n];
      forall k | 0 <= k < |init| ensures !Displaces(s, init, k, entry) {
        assert init[..k] == events[..k];
        assert !Displaces(s, events, k, entry);
      }
      assert forall e | e in init :: e in events;
      ForcedEntryStays(s, entry, init);
      assert last in events && !Displaces(s, events, n, entry);
      var t := Run(s, init);
      LastAccessKeeps(s, entry, events, t);
    }
  }

  lemma LastAccessKeeps(s: State, entry: Prefetched, events: seq<Event>, t: State)
    requires events != [] && t == Run(s, events[..|events| - 1]) && Holds(t, entry) && entry.request.score == FORCED_SCORE
    requires TradesScoreLow(events) && !Displaces(s, events, |events| - 1, entry)
    requires forall who | who in t.pending && t.pending[who].entry.request.mint == entry.request.mint ::
      KnownPending(s, events[..|events| - 1], who, t.pending[who])
    ensures var u := Step(t, events[|events| - 1]);
      Holds(u, entry) && forall who | who in u.pending && u.pending[who].entry.request.mint == entry.request.mint ::
        KnownPending(s, events, who, u.pending[who])
  {
    var n := |events| - 1;
    var u := Step(t, events[n]);
    assert events[n] in events;
    if events[n].Write? && events[n].who in t.pending && t.pending[events[n].who].entry.request.mint == entry.request.mint {
      PendingIsTheEntry(s, entry, events, t.pending[events[n].who]);
    }
    forall who | who in u.pending && u.pending[who].entry.request.mint == entry.request.mint
      ensures KnownPending(s, events, who, u.pending[who])
    {
      if who in t.pending {
        KnownPendingLonger(s, events, who, u.pending[who]);
      } else {
        assert ForcedAt(s, events, n, who, u.pending[who].entry);
      }
    }
  }

  lemma PendingIsTheEntry(s: State, entry: Prefetched, events: seq<Event>, p: Pending)
    requires events != [] && events[|events| - 1].Write? && !Displaces(s, events, |events| - 1, entry)
    requires p.entry.request.mint == entry.request.mint
    requires KnownPending(s, events[..|events| - 1], events[|events| - 1].who, p)
    ensures p.entry == entry
  {
    var n := |events| - 1;
    var who := events[n].who;
    if c :| 0 <= c < n && ForcedAt(s, events[..n], c, who, p.entry) {
      assert events[..n][c] in events[..n];
      assert events[..n][c].entry == p.entry;
    }
  }

  /**
   * The entry of a consensus decision stays in the cache throughout exactly when it is not dropped, does not
   * expire, is not forced out by another decision, and no other insert of its mint is still under way whose check
   * came before.
   */
  lemma ForcedEntrySurvivesIff(s: State, entry: Prefetched, events: seq<Event>)
    requires entry.request.score == FORCED_SCORE && Holds(s, entry) && TradesScoreLow(events)
    ensures (forall n | 0 <= n <= |events| :: Holds(Run(s, events[..n]), entry)) <==>
      (forall k | 0 <= k < |events| :: !Displaces(s, events, k, entry))
  {
    if forall k | 0 <= k < |events| :: !Displaces(s, events, k, entry) {
      forall n | 0 <= n <= |events| ensures Holds(Run(s, events[..n]), entry) {
        forall k | 0 <= k < n ensures !Displaces(s, events[..n], k, entry) {
          assert events[..n][..k] == events[..k];
          assert !Displaces(s, events, k, entry);
        }
        assert forall e | e in events[..n] :: e in events;
        ForcedEntryStays(s, entry, events[..n]);
      }
    } else {
      var k :| 0 <= k < |events| && Displaces(s, events, k, entry);
      DisplacedIsGone(s, entry, events, k);
      assert Holds(Run(s, events[..k]), entry) ==> !Holds(Run(s, events[..k + 1]), entry);
    }
  }

  lemma DisplacedIsGone(s: State, entry: Prefetched, events: seq<Event>, k: nat)
    requires k < |events| && Displaces(s, events, k, entry)
    ensures Holds(Run(s, events[..k]), entry) ==> !Holds(Run(s, events[..k + 1]), entry)
  {
    assert events[..k + 1][..k] == events[..k];
    if events[k].Write? {
      var who := events[k].who;
      if who in s.pending && s.pending[who].entry.request.mint == entry.request.mint && s.pending[who].entry != entry
         && Write(who) !in events[..k] {
        PendingStays(s, events[..k], who);
      } else {
        var e :| e in events[..k] && e.Check? && e.entry.request.mint == entry.request.mint && e.entry != entry
                 && ForcedSince(s, events[..k], who, e.entry);
        var c :| 0 <= c < k && ForcedAt(s, events[..k], c, who, e.entry);
        ForcedIsPending(s, events[..k], c, who, e.entry);
      }
    }
  }

  /** So a trade that checked just before the decision replaces the decision's list. */
  lemma TradeOverwritesDecision(s: State, trade: Prefetched, decision: Prefetched)
    requires trade.request.mint == decision.request.mint && trade.request.mint !in s.cache && 0 !in s.pending && 1 !in s.pending
    ensures Holds(Run(s, [Check(0, trade, false), Check(1, decision, true), Write(1), Write(0)]), trade)
  {
    var events := [Check(0, trade, false), Check(1, decision, true), Write(1), Write(0)];
    assert events[..3][..2] == events[..2] && events[..2][..1] == events[..1] && events[..1][..0] == [];
    assert Run(s, events[..1]) == Step(s, events[0]);
    assert Run(s, events[..2]) == Step(Run(s, events[..1]), events[1]);
    assert Run(s, events[..3]) == Step(Run(s, events[..2]), events[2]);
  }
}
