/** Waiting for a submitted sell: what the balance cache, the signature's status and the balance query amount to. */
module SellConfirm {
  import opened Common
  import opened Positions
  import opened SellExecutor

  datatype Status = Unknown | Landed | Rejected

  /** How a balance query ended: with a balance, with an error or an unreadable answer, or with its task lost. */
  datatype Query = Balance(amount: u64) | QueryFailed | TaskLost

  /** One poll: the cached balance, the status of the signature if it is asked for, and the query. */
  datatype SellPoll = SellPoll(cached: Option<u64>, status: Status, query: Query)

  /** The number that the code goes on with. */
  function ReadAs(q: Query): u64
  {
    match q
    case Balance(amount) => amount
    case QueryFailed => 0
    case TaskLost => TWO_64 - 1
  }

  predicate CacheHit(p: SellPoll, target: u64)
  {
    p.cached.Some? && p.cached.value <= target
  }

  predicate LandedBefore(polls: seq<SellPoll>, k: nat)
  {
    exists j :: 0 <= j < k && j < |polls| && polls[j].status == Landed
  }

  /** The status is asked for only until the transaction has been seen to land. */
  predicate RejectedAt(polls: seq<SellPoll>, k: nat)
    requires k < |polls|
  {
    polls[k].status == Rejected && !LandedBefore(polls, k)
  }

  /** What poll `k` settles: the cache goes before the status, and the status before the query. */
  function Settled(polls: seq<SellPoll>, k: nat, target: u64): Option<Confirmation>
    requires k < |polls|
  {
    if CacheHit(polls[k], target) then Some(Confirmed)
    else if RejectedAt(polls, k) then Some(SignatureError)
    else if ReadAs(polls[k].query) <= target then Some(Confirmed)
    else None
  }

  predicate Open(polls: seq<SellPoll>, k: nat, target: u64)
  {
    forall j: nat | j < k && j < |polls| :: Settled(polls, j, target) == None
  }

  /** The first poll that settles anything decides; a signature that cannot be read is never polled for. */
  ghost predicate IsOutcome(c: Confirmation, readable: bool, polls: seq<SellPoll>, target: u64)
  {
    if !readable || Open(polls, |polls|, target) then c == TimedOut
    else exists k: nat :: k < |polls| && Open(polls, k, target) && Settled(polls, k, target) == Some(c)
  }

  /** The polls that fit in the confirmation window, for the balance expected after the sell. */
  method WaitSellConfirm(readable: bool, polls: seq<SellPoll>, target: u64) returns (c: Confirmation)
    ensures IsOutcome(c, readable, polls, target)
  {
    if !readable {
      return TimedOut;
    }
    var signatureSeen := false;
    for k := 0 to |polls|
      invariant Open(polls, k, target)
      invariant signatureSeen == LandedBefore(polls, k)
    {
      var p := polls[k];
      if p.cached.Some? && p.cached.value <= target {
        assert Settled(polls, k, target) == Some(Confirmed);
        return Confirmed;
      }
      if !signatureSeen {
        match p.status
        case Rejected =>
          assert Settled(polls, k, target) == Some(SignatureError);
          return SignatureError;
        case Landed => signatureSeen := true;
        case Unknown =>
      }
      if ReadAs(p.query) <= target {
        assert Settled(polls, k, target) == Some(Confirmed);
        return Confirmed;
      }
    }
    return TimedOut;
  }

  lemma OutcomeIsUnique(b: Confirmation, c: Confirmation, readable: bool, polls: seq<SellPoll>, target: u64)
    requires IsOutcome(b, readable, polls, target) && IsOutcome(c, readable, polls, target)
    ensures b == c
  {
    hide Settled;
    forall j: nat, k: nat | j < |polls| && k < |polls| && Open(polls, j, target) && Open(polls, k, target)
      && Settled(polls, j, target) != None && Settled(polls, k, target) != None
      ensures j == k
    {
    }
  }

  /** In the deciding poll a cached balance at the target outweighs a rejection, and a rejection outweighs the query. */
  lemma EarlierSourceDecides(c: Confirmation, polls: seq<SellPoll>, k: nat, target: u64)
    requires IsOutcome(c, true, polls, target) && k < |polls| && Open(polls, k, target)
    ensures polls[k].cached.Some? && polls[k].cached.value <= target ==> c == Confirmed
    ensures !CacheHit(polls[k], target) && RejectedAt(polls, k) ==> c == SignatureError
    ensures !CacheHit(polls[k], target) && !RejectedAt(polls, k) ==>
      (polls[k].query.Balance? && polls[k].query.amount <= target ==> c == Confirmed)
  {
    var settled := Settled(polls, k, target);
    if settled.Some? {
      assert IsOutcome(settled.value, true, polls, target);
      OutcomeIsUnique(c, settled.value, true, polls, target);
    }
  }

  /** The chain rejects the transaction in poll `k`, and no poll before has seen it land or read a balance at the target. */
  predicate FirstNewsIsRejection(polls: seq<SellPoll>, k: nat, target: u64)
  {
    && k < |polls| && polls[k].status == Rejected && !CacheHit(polls[k], target)
    && (forall j | 0 <= j < k :: polls[j].status == Unknown)
    && (forall j | 0 <= j < k :: !CacheHit(polls[j], target) && ReadAs(polls[j].query) > target)
  }

  /** The sell counts as rejected exactly in that case. */
  lemma RejectedIff(c: Confirmation, readable: bool, polls: seq<SellPoll>, target: u64)
    requires IsOutcome(c, readable, polls, target)
    ensures c == SignatureError <==> readable && exists k :: FirstNewsIsRejection(polls, k, target)
  {
    if c == SignatureError {
      var k: nat :| k < |polls| && Open(polls, k, target) && Settled(polls, k, target) == Some(c);
      forall j: nat | j < k
        ensures polls[j].status == Unknown && !CacheHit(polls[j], target) && ReadAs(polls[j].query) > target
      {
        assert Settled(polls, j, target) == None;
        assert !LandedBefore(polls, j);
      }
      assert FirstNewsIsRejection(polls, k, target);
    }
    if k: nat :| readable && FirstNewsIsRejection(polls, k, target) {
      assert Open(polls, k, target) && Settled(polls, k, target) == Some(SignatureError);
      assert IsOutcome(SignatureError, readable, polls, target);
      OutcomeIsUnique(c, SignatureError, readable, polls, target);
    }
  }

  // ---- What a confirmation rests on ----

  /** Every balance that is seen is still above the target: as far as anybody can tell, nothing was sold. */
  predicate NothingSold(polls: seq<SellPoll>, target: u64)
  {
    forall k | 0 <= k < |polls| ::
      && !CacheHit(polls[k], target)
      && (polls[k].query.Balance? ==> polls[k].query.amount > target)
  }

  /** A query failed before the chain was seen to reject the transaction. */
  predicate FailsUnrejected(polls: seq<SellPoll>)
  {
    exists k: nat :: k < |polls| && polls[k].query == QueryFailed && forall j: nat | j <= k :: !RejectedAt(polls, j)
  }

  /**
   * A failed balance query counts as an empty account.  So a sell by which no balance is ever seen to fall is
   * confirmed all the same exactly if some query fails while the transaction has not been rejected.  (The target is
   * below the balance sold from, so it is not the largest number there is.)
   */
  lemma UnsoldIsConfirmedIff(c: Confirmation, readable: bool, polls: seq<SellPoll>, target: u64)
    requires target < TWO_64 - 1 && NothingSold(polls, target) && IsOutcome(c, readable, polls, target)
    ensures c == Confirmed <==> readable && FailsUnrejected(polls)
  {
    hide RejectedAt;
    forall k: nat | k < |polls|
      ensures Settled(polls, k, target) == Some(Confirmed) <==> !RejectedAt(polls, k) && polls[k].query == QueryFailed
      ensures Settled(polls, k, target) == Some(SignatureError) <==> RejectedAt(polls, k)
    {
    }
    if readable && FailsUnrejected(polls) {
      var k: nat :| k < |polls| && polls[k].query == QueryFailed && forall j: nat | j <= k :: !RejectedAt(polls, j);
      assert Settled(polls, k, target) == Some(Confirmed);
    }
  }

  /** Without failed queries a confirmation rests on a balance at or below the target, seen by cache or query. */
  lemma ConfirmedWasSeen(polls: seq<SellPoll>, target: u64)
    requires target < TWO_64 - 1 && IsOutcome(Confirmed, true, polls, target)
    requires forall p | p in polls :: p.query != QueryFailed
    ensures exists p :: p in polls && (CacheHit(p, target) || (p.query.Balance? && p.query.amount <= target))
  {
    var k: nat :| k < |polls| && Open(polls, k, target) && Settled(polls, k, target) == Some(Confirmed);
    assert polls[k] in polls;
  }

  /** A position that was sold by nobody is then closed and reported as sold. */
  lemma UnsoldIsClosed(p: PositionData, reason: SellReason, env: Surroundings, signature: string, c: Confirmation, polls: seq<SellPoll>)
    requires Attempted(p, env) && !env.viaJupiter && env.attempts != [] && env.attempts[0].pumpfun == Sent(signature, c)
    requires env.balance < TWO_64
    requires var target := env.balance - SellAmount(p, env.balance);
      NothingSold(polls, target) && FailsUnrejected(polls) && IsOutcome(c, true, polls, target)
    ensures AfterSellSignal(p, reason, env).state == Closed
    ensures ReportOf(p, env) == SellSuccess(signature, SellAmount(p, env.balance), SellAmount(p, env.balance) == env.balance)
  {
    UnsoldIsConfirmedIff(c, true, polls, env.balance - SellAmount(p, env.balance));
    var sends := AttemptSends(env.viaJupiter, env.attempts[0]);
    assert sends == [Sent(signature, Confirmed)] && sends[0].confirmation.Confirmed?;
    assert EndsLoop(sends) && Sends(env.viaJupiter, env.attempts) == sends;
  }
}
