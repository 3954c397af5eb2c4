/** Carrying out a sell signal: the retry loop with its fallback route, and what is left of the position afterwards. */
module SellExecutor {
  import opened Common
  import opened Positions
  import opened Manager

  const MAX_SELL_RETRIES: nat := 3

  /** What waiting for a submitted sell came to: taken for done, rejected by the chain, or neither in time. */
  datatype Confirmation = Confirmed | SignatureError | TimedOut

  /** The answer of one route to one request to sell. */
  datatype Answer = NotSent | Sent(signature: string, confirmation: Confirmation)

  /** How the two routes would answer in one attempt. */
  datatype Answers = Answers(pumpfun: Answer, jupiter: Answer)

  // ---- The retry loop ----

  /** The transactions that one attempt puts on the network, in order. */
  function AttemptSends(viaJupiter: bool, a: Answers): seq<Answer>
  {
    var fallback := if a.jupiter.Sent? then [a.jupiter] else [];
    if viaJupiter || a.pumpfun.NotSent? then fallback
    else if a.pumpfun.confirmation.SignatureError? then [a.pumpfun] + fallback
    else [a.pumpfun]
  }

  /** An attempt ends the loop once something in it was confirmed or rejected on chain. */
  predicate EndsLoop(sends: seq<Answer>)
  {
    exists i | 0 <= i < |sends| :: sends[i].Sent? && !sends[i].confirmation.TimedOut?
  }

  /** All transactions of the attempts that are left. */
  function Sends(viaJupiter: bool, attempts: seq<Answers>): seq<Answer>
    decreases |attempts|
  {
    if attempts == [] then [] else
    var sends := AttemptSends(viaJupiter, attempts[0]);
    if EndsLoop(sends) then sends else sends + Sends(viaJupiter, attempts[1..])
  }

  predicate WasConfirmed(sends: seq<Answer>)
  {
    exists i | 0 <= i < |sends| :: sends[i].Sent? && sends[i].confirmation.Confirmed?
  }

  predicate WasRejected(sends: seq<Answer>)
  {
    exists i | 0 <= i < |sends| :: sends[i].Sent? && sends[i].confirmation.SignatureError?
  }

  /** Nothing follows a confirmation, and a rejection is followed by at most one more transaction. */
  ghost predicate WellOrdered(sends: seq<Answer>)
  {
    forall i | 0 <= i < |sends| ::
      && sends[i].Sent?
      && (sends[i].confirmation.Confirmed? ==> i == |sends| - 1)
      && (sends[i].confirmation.SignatureError? ==> i >= |sends| - 2)
  }

  lemma TwoSendsEndTheLoop(viaJupiter: bool, a: Answers)
    ensures var sends := AttemptSends(viaJupiter, a);
      |sends| <= 2 && (|sends| == 2 ==> !viaJupiter && EndsLoop(sends))
  {
    var sends := AttemptSends(viaJupiter, a);
    if |sends| == 2 {
      assert sends[0].confirmation.SignatureError?;
    }
  }

  /** One transaction per attempt, and at most one more for the fallback of an attempt rejected on chain. */
  lemma {:induction false} SendsAreBounded(viaJupiter: bool, attempts: seq<Answers>)
    ensures WellOrdered(Sends(viaJupiter, attempts))
    ensures |Sends(viaJupiter, attempts)| <= |attempts| + (if viaJupiter || attempts == [] then 0 else 1)
    decreases |attempts|
  {
    if attempts != [] {
      var sends := AttemptSends(viaJupiter, attempts[0]);
      TwoSendsEndTheLoop(viaJupiter, attempts[0]);
      if EndsLoop(sends) {
        assert WellOrdered(sends);
      } else {
        SendsAreBounded(viaJupiter, attempts[1..]);
        assert AllTimedOut(sends);
      }
    }
  }

  /** The bound is reached for every number of retries: time out until the last attempt, which is rejected and falls back. */
  lemma {:induction false} BoundIsReached(retries: nat)
    requires retries > 0
    ensures exists attempts :: |attempts| == retries && |Sends(false, attempts)| == retries + 1
  {
    var last := Answers(Sent("p", SignatureError), Sent("j", TimedOut));
    var quiet := Answers(Sent("p", TimedOut), NotSent);
    assert AttemptSends(false, last) == [last.pumpfun, last.jupiter];
    assert AttemptSends(false, last)[0].confirmation.SignatureError?;
    var attempts := [last];
    assert Sends(false, attempts) == AttemptSends(false, last);
    while |attempts| < retries
      invariant 1 <= |attempts| <= retries && |Sends(false, attempts)| == |attempts| + 1
    {
      ghost var longer := [quiet] + attempts;
      assert longer[1..] == attempts;
      assert Sends(false, longer) == [quiet.pumpfun] + Sends(false, attempts);
      attempts := longer;
    }
  }

  lemma AtMostFour(viaJupiter: bool, attempts: seq<Answers>)
    requires |attempts| == MAX_SELL_RETRIES
    ensures |Sends(viaJupiter, attempts)| <= 4
  {
    SendsAreBounded(viaJupiter, attempts);
  }

  /** So a signal may put four transactions on the network. */
  lemma FourAreReached()
    ensures exists attempts :: |attempts| == MAX_SELL_RETRIES && |Sends(false, attempts)| == 4
  {
    BoundIsReached(MAX_SELL_RETRIES);
  }

  // ---- When a signal succeeds, route by route ----

  /** Jupiter gets its turn in an attempt: it is the route, or the bonding curve was not sent or was rejected. */
  predicate JupiterTries(viaJupiter: bool, a: Answers)
  {
    viaJupiter || a.pumpfun.NotSent? || a.pumpfun.confirmation == SignatureError
  }

  predicate ConfirmsIn(viaJupiter: bool, a: Answers)
  {
    || (!viaJupiter && a.pumpfun.Sent? && a.pumpfun.confirmation == Confirmed)
    || (JupiterTries(viaJupiter, a) && a.jupiter.Sent? && a.jupiter.confirmation == Confirmed)
  }

  predicate RejectsIn(viaJupiter: bool, a: Answers)
  {
    || (!viaJupiter && a.pumpfun.Sent? && a.pumpfun.confirmation == SignatureError)
    || (JupiterTries(viaJupiter, a) && a.jupiter.Sent? && a.jupiter.confirmation == SignatureError)
  }

  lemma AttemptMeans(viaJupiter: bool, a: Answers)
    ensures var sends := AttemptSends(viaJupiter, a);
      && (WasConfirmed(sends) <==> ConfirmsIn(viaJupiter, a))
      && (EndsLoop(sends) <==> ConfirmsIn(viaJupiter, a) || RejectsIn(viaJupiter, a))
      && (sends == [] <==> (viaJupiter || a.pumpfun.NotSent?) && a.jupiter.NotSent?)
  {
    var sends := AttemptSends(viaJupiter, a);
    assert |sends| >= 1 ==> sends[0] in {a.pumpfun, a.jupiter};
    assert |sends| == 2 ==> sends[0] == a.pumpfun && sends[1] == a.jupiter;
    assert ConfirmsIn(viaJupiter, a) ==> sends[|sends| - 1].confirmation.Confirmed?;
    assert RejectsIn(viaJupiter, a) ==> WasRejected(sends) || WasConfirmed(sends);
  }

  lemma ConfirmedEither(sends: seq<Answer>, rest: seq<Answer>)
    ensures WasConfirmed(sends + rest) <==> WasConfirmed(sends) || WasConfirmed(rest)
  {
    var all := sends + rest;
    assert forall i | 0 <= i < |rest| :: all[|sends| + i] == rest[i];
    assert forall i | 0 <= i < |sends| :: all[i] == sends[i];
  }

  /** A signal succeeds exactly if some attempt confirms and none before it confirmed or was rejected. */
  lemma {:induction false} SucceedsIff(viaJupiter: bool, attempts: seq<Answers>)
    ensures WasConfirmed(Sends(viaJupiter, attempts)) <==>
      exists k :: 0 <= k < |attempts| && ConfirmsIn(viaJupiter, attempts[k])
        && forall j | 0 <= j < k :: !ConfirmsIn(viaJupiter, attempts[j]) && !RejectsIn(viaJupiter, attempts[j])
    decreases |attempts|
  {
    hide AttemptSends, EndsLoop, ConfirmsIn, RejectsIn, WasConfirmed;
    if attempts == [] {
      AllTimedOutMeans([]);
    } else {
      var a, rest := attempts[0], attempts[1..];
      AttemptMeans(viaJupiter, a);
      if !ConfirmsIn(viaJupiter, a) && !RejectsIn(viaJupiter, a) {
        SucceedsIff(viaJupiter, rest);
        ConfirmedEither(AttemptSends(viaJupiter, a), Sends(viaJupiter, rest));
        forall k | 0 <= k < |rest|
          ensures attempts[k + 1] == rest[k]
        {
        }
        if WasConfirmed(Sends(viaJupiter, rest)) {
          var k :| 0 <= k < |rest| && ConfirmsIn(viaJupiter, rest[k])
            && forall j | 0 <= j < k :: !ConfirmsIn(viaJupiter, rest[j]) && !RejectsIn(viaJupiter, rest[j]);
          assert ConfirmsIn(viaJupiter, attempts[k + 1]);
        }
      }
    }
  }

  /** One attempt: the bonding curve first, Jupiter when that was rejected or could not be sent. */
  method Attempt(viaJupiter: bool, a: Answers)
    returns (success: bool, lastSig: string, sawSignatureError: bool, sends: seq<Answer>)
    ensures sends == AttemptSends(viaJupiter, a)
    ensures success <==> WasConfirmed(sends)
    ensures success ==> sends != [] && sends[|sends| - 1] == Sent(lastSig, Confirmed)
    ensures sawSignatureError <==> !success && WasRejected(sends)
  {
    success, lastSig, sawSignatureError, sends := false, "", false, [];
    if !viaJupiter && a.pumpfun.Sent? {
      sends := [a.pumpfun];
      assert sends[0] == a.pumpfun;
      if a.pumpfun.confirmation.Confirmed? {
        success, lastSig := true, a.pumpfun.signature;
        return;
      }
      sawSignatureError := a.pumpfun.confirmation.SignatureError?;
      if !sawSignatureError {
        return;
      }
    }
    if a.jupiter.Sent? {
      sends := sends + [a.jupiter];
      assert sends[|sends| - 1] == a.jupiter;
      if a.jupiter.confirmation.Confirmed? {
        success, lastSig, sawSignatureError := true, a.jupiter.signature, false;
        return;
      }
      if a.jupiter.confirmation.SignatureError? {
        sawSignatureError := true;
      }
      assert |sends| == 2 ==> sends[0] == a.pumpfun;
    }
  }

  /** No transaction so far was confirmed or rejected. */
  predicate AllTimedOut(sends: seq<Answer>)
  {
    forall i | 0 <= i < |sends| :: sends[i].Sent? && sends[i].confirmation.TimedOut?
  }

  lemma JoinSends(before: seq<Answer>, sends: seq<Answer>, rest: seq<Answer>)
    requires AllTimedOut(before)
    ensures WasConfirmed(before + sends) == WasConfirmed(sends) && WasRejected(before + sends) == WasRejected(sends)
    ensures EndsLoop(sends) <==> WasConfirmed(sends) || WasRejected(sends)
    ensures !EndsLoop(sends) && (forall i | 0 <= i < |sends| :: sends[i].Sent?) ==> AllTimedOut(before + sends)
    ensures (before + sends) + rest == before + (sends + rest)
  {
    var all := before + sends;
    assert forall i | 0 <= i < |sends| :: all[|before| + i] == sends[i];
    assert forall i | |before| <= i < |all| :: all[i] == sends[i - |before|];
  }

  /** One more attempt either ends the loop or leaves only transactions that timed out. */
  lemma OneMoreAttempt(viaJupiter: bool, attempts: seq<Answers>, k: nat, sent: seq<Answer>)
    requires k < |attempts| && AllTimedOut(sent)
    requires Sends(viaJupiter, attempts) == sent + Sends(viaJupiter, attempts[k..])
    ensures var sends := AttemptSends(viaJupiter, attempts[k]);
      && WasConfirmed(sent + sends) == WasConfirmed(sends) && WasRejected(sent + sends) == WasRejected(sends)
      && (if WasConfirmed(sends) || WasRejected(sends) then Sends(viaJupiter, attempts) == sent + sends
          else AllTimedOut(sent + sends)
               && Sends(viaJupiter, attempts) == (sent + sends) + Sends(viaJupiter, attempts[k + 1..]))
  {
    hide WasConfirmed, WasRejected;
    var sends := AttemptSends(viaJupiter, attempts[k]);
    assert attempts[k..][1..] == attempts[k + 1..];
    JoinSends(sent, sends, Sends(viaJupiter, attempts[k + 1..]));
  }

  lemma AllTimedOutMeans(sends: seq<Answer>)
    requires AllTimedOut(sends)
    ensures !WasConfirmed(sends) && !WasRejected(sends)
  {
  }

  /**
   * The loop of a sell signal.  `sent` is what it put on the network; on success `lastSig` is the
   * signature of the last of these, the only confirmed one.
   */
  method SellWithRetries(viaJupiter: bool, attempts: seq<Answers>)
    returns (success: bool, lastSig: string, sawSignatureError: bool, sent: seq<Answer>)
    requires |attempts| == MAX_SELL_RETRIES
    ensures sent == Sends(viaJupiter, attempts) && WellOrdered(sent) && |sent| <= 4
    ensures success <==> WasConfirmed(sent)
    ensures success ==> sent != [] && sent[|sent| - 1] == Sent(lastSig, Confirmed)
    ensures sawSignatureError <==> !success && WasRejected(sent)
  {
    hide *;
    success, lastSig, sawSignatureError, sent := false, "", false, [];
    SendsAreBounded(viaJupiter, attempts);
    AtMostFour(viaJupiter, attempts);
    NothingSentYet();
    var attempt := 0;
    assert attempts[0..] == attempts;
    while attempt < MAX_SELL_RETRIES
      invariant 0 <= attempt <= |attempts|
      invariant !success && !sawSignatureError && AllTimedOut(sent)
      invariant Sends(viaJupiter, attempts) == sent + Sends(viaJupiter, attempts[attempt..])
    {
      var sends;
      success, lastSig, sawSignatureError, sends := Attempt(viaJupiter, attempts[attempt]);
      OneMoreAttempt(viaJupiter, attempts, attempt, sent);
      assert success ==> (sent + sends)[|sent + sends| - 1] == sends[|sends| - 1];
      sent := sent + sends;
      attempt := attempt + 1;
      if success || sawSignatureError {
        return;
      }
    }
    NothingLeft(viaJupiter, attempts[attempt..]);
    AllTimedOutMeans(sent);
  }

  lemma NothingSentYet()
    ensures AllTimedOut([])
  {
  }

  lemma NothingLeft(viaJupiter: bool, attempts: seq<Answers>)
    requires attempts == []
    ensures Sends(viaJupiter, attempts) == []
  {
  }

  // ---- A whole sell signal ----

  /** What the executor finds around a position: the account balance, a usable snapshot, and how the routes answer attempt by attempt. */
  datatype Surroundings = Surroundings(
    hasSnapshot: bool,
    viaJupiter: bool,
    balance: nat,
    attempts: seq<Answers>)

  datatype Report =
    | NoReport
    | SellSuccess(signature: string, amount: nat, fullyClosed: bool)
    | SellFailed

  function SellAmount(p: PositionData, balance: nat): nat
  {
    if p.tokenAmount > 0 then (if p.tokenAmount < balance then p.tokenAmount else balance) else balance
  }

  /** The amount is covered by the account and, if the position has tokens booked, by the booking. */
  predicate MaySell(p: PositionData, balance: nat, amount: nat)
  {
    amount <= balance && (p.tokenAmount > 0 ==> amount <= p.tokenAmount)
  }

  /** No larger amount would do. */
  ghost predicate IsLargestSale(p: PositionData, balance: nat, amount: nat)
  {
    MaySell(p, balance, amount) && forall more: nat | MaySell(p, balance, more) :: more <= amount
  }

  lemma SellsTheLargest(p: PositionData, balance: nat)
    ensures IsLargestSale(p, balance, SellAmount(p, balance))
  {
    assert MaySell(p, balance, SellAmount(p, balance));
  }

  function Booked(positions: seq<PositionData>): nat
  {
    if positions == [] then 0 else positions[0].tokenAmount + Booked(positions[1..])
  }

  /** What is left in a shared account when its positions are sold one after another. */
  function LeftAfter(positions: seq<PositionData>, balance: nat): nat
    decreases |positions|
  {
    if positions == [] then balance
    else
      SellsTheLargest(positions[0], balance);
      LeftAfter(positions[1..], balance - SellAmount(positions[0], balance))
  }

  /**
   * Positions that share an account, each with tokens booked, leave each other's tokens alone if the bookings fit: every
   * one sells exactly its booking, in whatever order, and the rest stays.
   */
  lemma {:induction false} BookingsAreKeptApart(positions: seq<PositionData>, balance: nat)
    requires forall p | p in positions :: p.tokenAmount > 0
    requires Booked(positions) <= balance
    ensures LeftAfter(positions, balance) == balance - Booked(positions)
    ensures positions != [] ==> SellAmount(positions[0], balance) == positions[0].tokenAmount
    decreases |positions|
  {
    if positions != [] {
      SellsTheLargest(positions[0], balance);
      assert MaySell(positions[0], balance, positions[0].tokenAmount);
      BookingsAreKeptApart(positions[1..], balance - positions[0].tokenAmount);
    }
  }

  /** The amount is the booking exactly if there is one that the account covers, or there is nothing at all. */
  lemma SellsTheBookingIff(p: PositionData, balance: nat)
    ensures SellAmount(p, balance) == p.tokenAmount <==> (0 < p.tokenAmount <= balance) || (p.tokenAmount == 0 && balance == 0)
  {
    SellsTheLargest(p, balance);
    if p.tokenAmount <= balance {
      assert MaySell(p, balance, p.tokenAmount);
    }
    assert p.tokenAmount == 0 ==> MaySell(p, balance, balance);
  }

  /** Whether a signal for `p` gets as far as claiming the position. */
  predicate Attempted(p: PositionData, env: Surroundings)
  {
    env.hasSnapshot && SellAmount(p, env.balance) > 0 && Accepted(p, StartSelling)
  }

  /** The position after a sell signal that ran without interference. */
  function AfterSellSignal(p: PositionData, reason: SellReason, env: Surroundings): PositionData
  {
    if !env.hasSnapshot then p
    else if SellAmount(p, env.balance) == 0 then AfterSkip(p)
    else if !Accepted(p, StartSelling) then p
    else
      var claimed := Apply(p, StartSelling);
      Apply(claimed, Release(claimed, reason, p.state, Sends(env.viaJupiter, env.attempts)))
  }

  /** A signal for a position that holds nothing: counted, and fatal when repeated. */
  function AfterSkip(p: PositionData): PositionData
  {
    var skipped := Apply(p, SkipZeroBalance);
    if skipped.zeroSkips >= MAX_ZERO_BALANCE_SKIPS then Apply(skipped, Fail) else skipped
  }

  /** How a claim on position `p` is given up once the transactions `sends` have run their course. */
  function Release(p: PositionData, reason: SellReason, previous: PositionState, sends: seq<Answer>): Operation
  {
    if WasConfirmed(sends) && sends[|sends| - 1].Sent? then Close(sends[|sends| - 1].signature)
    else if reason != Manual && AttemptsExhausted(p) then Suspend(previous, MAX_AUTO_SELL_SIGNAL_ATTEMPTS)
    else Restore(previous)
  }

  /** What is reported for a signal. */
  function ReportOf(p: PositionData, env: Surroundings): Report
  {
    if !Attempted(p, env) then NoReport
    else ReportOfSends(SellAmount(p, env.balance), env)
  }

  function ReportOfSends(amount: nat, env: Surroundings): Report
  {
    var sends := Sends(env.viaJupiter, env.attempts);
    if WasConfirmed(sends) && sends[|sends| - 1].Sent?
    then SellSuccess(sends[|sends| - 1].signature, amount, amount == env.balance)
    else SellFailed
  }

  /**
   * A signal that claims the position settles it: closed with the last signature if a sell was
   * confirmed, otherwise exactly as before but for the counters, never left in `Selling`.
   */
  lemma SellSignalSettles(p: PositionData, reason: SellReason, env: Surroundings)
    requires Attempted(p, env)
    ensures var sends, after, report := Sends(env.viaJupiter, env.attempts), AfterSellSignal(p, reason, env), ReportOf(p, env);
      && after.state != Selling
      && (WasConfirmed(sends) <==> after.state == Closed)
      && (WasConfirmed(sends) <==> report.SellSuccess?)
      && (WasConfirmed(sends) ==> sends[|sends| - 1] == Sent(report.signature, Confirmed)
                                  && after.sellSignature == Some(report.signature))
      && (!WasConfirmed(sends) ==>
            report == SellFailed && after == p.(sellAttempts := WrappingInc32(p.sellAttempts), zeroSkips := 0))
  {
    SendsAreBounded(env.viaJupiter, env.attempts);
    SuspendIsRestore(Apply(p, StartSelling), p.state);
  }

  /** The suspension that follows five failures leaves nothing behind that restoring would not. */
  lemma SuspendIsRestore(p: PositionData, previous: PositionState)
    ensures AttemptsExhausted(p) <==>
      Apply(p, Suspend(previous, MAX_AUTO_SELL_SIGNAL_ATTEMPTS)) == Apply(p, Restore(previous))
  {
    assert Apply(p, Restore(previous)).sellAttempts == p.sellAttempts;
    assert Apply(p, Suspend(previous, MAX_AUTO_SELL_SIGNAL_ATTEMPTS)).sellAttempts == Max(p.sellAttempts, MAX_AUTO_SELL_SIGNAL_ATTEMPTS);
  }

  // ---- A manual partial sell ----

  function PartialAmount(total: nat, percent: nat): nat
  {
    if percent >= 100 then total else total * percent / 100
  }

  /** The position after a manual partial sell of less than everything. */
  function AfterPartialSell(p: PositionData, percent: nat, sent: bool, now: nat): PositionData
  {
    if p.tokenAmount == 0 || !Accepted(p, StartSelling) then p
    else Apply(Apply(p, StartSelling), if sent then SellPart(PartialAmount(p.tokenAmount, percent), now) else Restore(p.state))
  }

  lemma PartialAmountBounds(total: nat, percent: nat)
    requires percent < 100
    ensures PartialAmount(total, percent) <= total
    ensures 100 * PartialAmount(total, percent) <= total * percent < 100 * (PartialAmount(total, percent) + 1)
    ensures PartialAmount(total, percent) == 0 <==> total * percent < 100
  {
    assert total * percent <= total * 100;
  }

  /**
   * A partial sell leaves the position in `Selling` exactly when it was sellable, the transaction went
   * out, and the share rounds to no token at all; otherwise a sent one deducts what was sold.
   */
  lemma PartialSellStrandsIff(p: PositionData, percent: nat, sent: bool, now: nat)
    requires percent < 100 && p.state != Selling
    ensures var q := AfterPartialSell(p, percent, sent, now);
      && (q.state == Selling <==> p.tokenAmount > 0 && Sellable(p.state) && sent && p.tokenAmount * percent < 100)
      && (Sellable(p.state) && sent && p.tokenAmount * percent >= 100 ==>
            q.state == Active && 100 * (p.tokenAmount - q.tokenAmount) <= p.tokenAmount * percent < 100 * (p.tokenAmount - q.tokenAmount + 1))
  {
    PartialAmountBounds(p.tokenAmount, percent);
  }

  lemma UpdateTwice(t: Table, key: PositionKey, first: Operation, second: Operation)
    requires key in t
    ensures Update(Update(t, key, first), key, second) == t[key := Apply(Apply(t[key], first), second)]
  {
  }

  /** The value of a signal, case by case, and what the two table updates of a sell amount to. */
  lemma SellSignalCases(t: Table, key: PositionKey, reason: SellReason, env: Surroundings)
    requires key in t
    ensures var p, q, amount := t[key], AfterSellSignal(t[key], reason, env), SellAmount(t[key], env.balance);
      var release := Release(Apply(p, StartSelling), reason, p.state, Sends(env.viaJupiter, env.attempts));
      if !env.hasSnapshot then q == p && ReportOf(p, env) == NoReport
      else if amount == 0 then q == AfterSkip(p) && ReportOf(p, env) == NoReport
      else if !Accepted(p, StartSelling) then q == p == Apply(p, StartSelling) && ReportOf(p, env) == NoReport
      else q == Apply(Apply(p, StartSelling), release) && ReportOf(p, env) == ReportOfSends(amount, env) != NoReport
    ensures key in Update(t, key, StartSelling) && Update(t, key, StartSelling)[key] == Apply(t[key], StartSelling)
    ensures SellAmount(t[key], env.balance) <= env.balance
  {
  }

  lemma PartialSellCases(t: Table, key: PositionKey, percent: nat, sent: bool, now: nat)
    requires key in t
    ensures var p, q := t[key], AfterPartialSell(t[key], percent, sent, now);
      if p.tokenAmount == 0 then q == p
      else if !Accepted(p, StartSelling) then q == p == Apply(p, StartSelling)
      else percent < 100 ==>
        q == Apply(Apply(p, StartSelling), if sent then SellPart(p.tokenAmount * percent / 100, now) else Restore(p.state))
  {
  }

  lemma SamePosition(t: Table, key: PositionKey)
    requires key in t
    ensures t[key := t[key]] == t
    ensures Apply(t[key], StartSelling) == t[key] ==> Update(t, key, StartSelling) == t
  {
  }

  /** How the loop's outcome decides the release of the claim and the report. */
  lemma OutcomeOf(p: PositionData, reason: SellReason, previous: PositionState, amount: nat, env: Surroundings,
                  success: bool, lastSig: string)
    requires var sends := Sends(env.viaJupiter, env.attempts);
      (success <==> WasConfirmed(sends)) && (success ==> sends != [] && sends[|sends| - 1] == Sent(lastSig, Confirmed))
    requires amount <= env.balance
    ensures Release(p, reason, previous, Sends(env.viaJupiter, env.attempts)) ==
      if success then Close(lastSig)
      else if reason != Manual && AttemptsExhausted(p) then Suspend(previous, MAX_AUTO_SELL_SIGNAL_ATTEMPTS)
      else Restore(previous)
    ensures ReportOfSends(amount, env) == if success then SellSuccess(lastSig, amount, env.balance - amount == 0) else SellFailed
  {
    hide Sends, WasConfirmed;
  }

  class Executor {
    const autoSell: AutoSellManager

    constructor (autoSell: AutoSellManager)
      ensures this.autoSell == autoSell
    {
      this.autoSell := autoSell;
    }

    /** Runs one full-sell signal to its end; `untrack` says that no position holds the mint any more. */
    method HandleSellSignal(key: PositionKey, reason: SellReason, env: Surroundings)
      returns (report: Report, sent: seq<Answer>, untrack: bool)
      requires autoSell.Valid() && |env.attempts| == MAX_SELL_RETRIES
      modifies autoSell.positions.Values
      ensures autoSell.Valid()
      ensures key in old(autoSell.Contents()) ==>
        autoSell.Contents() == old(autoSell.Contents())[key := AfterSellSignal(old(autoSell.Contents())[key], reason, env)]
      ensures key !in old(autoSell.Contents()) ==> autoSell.Contents() == old(autoSell.Contents())
      ensures report == if key in old(autoSell.Contents()) then ReportOf(old(autoSell.Contents())[key], env) else NoReport
      ensures report.SellSuccess? ==>
        && IsLargestSale(old(autoSell.Contents())[key], env.balance, report.amount) && report.amount > 0
        && (report.fullyClosed <==> report.amount == env.balance)
      ensures sent == if report.NoReport? then [] else Sends(env.viaJupiter, env.attempts)
      ensures untrack <==> report.SellSuccess? && OpenKeys(autoSell.Contents(), key.tokenMint) == {}
    {
      hide *;
      report, sent, untrack := NoReport, [], false;
      var before := autoSell.GetPosition(key);
      if before.Some? {
        SellSignalCases(autoSell.Contents(), key, reason, env);
        SamePosition(autoSell.Contents(), key);
      }
      if before.None? || !env.hasSnapshot {
        return;
      }
      SellsTheLargest(before.value, env.balance);
      var amount := SellAmount(before.value, env.balance);
      if amount == 0 {
        SkipSell(key);
        return;
      }
      var claimed := autoSell.MarkSelling(key);
      if claimed {
        UpdateTwice(old(autoSell.Contents()), key, StartSelling,
          Release(autoSell.Contents()[key], reason, before.value.state, Sends(env.viaJupiter, env.attempts)));
        report, sent, untrack := SellClaimed(key, reason, before.value.state, amount, env);
      }
    }

    /** Sells a claimed position and releases the claim. */
    method SellClaimed(key: PositionKey, reason: SellReason, previous: PositionState, amount: nat, env: Surroundings)
      returns (report: Report, sent: seq<Answer>, untrack: bool)
      requires autoSell.Valid() && key in autoSell.Contents() && amount <= env.balance && |env.attempts| == MAX_SELL_RETRIES
      modifies autoSell.positions.Values
      ensures autoSell.Valid() && sent == Sends(env.viaJupiter, env.attempts)
      ensures autoSell.Contents() == Update(old(autoSell.Contents()), key, Release(old(autoSell.Contents())[key], reason, previous, sent))
      ensures report == ReportOfSends(amount, env)
      ensures report.SellSuccess? ==> report.amount == amount && (report.fullyClosed <==> amount == env.balance)
      ensures untrack <==> report.SellSuccess? && OpenKeys(autoSell.Contents(), key.tokenMint) == {}
    {
      hide *;
      untrack := false;
      var expectedAfter := env.balance - amount;
      var success, lastSig, _, sends := SellWithRetries(env.viaJupiter, env.attempts);
      sent := sends;
      OutcomeOf(autoSell.Contents()[key], reason, previous, amount, env, success, lastSig);
      Settle(key, reason, previous, success, lastSig);
      if success {
        var open := autoSell.OpenPositionCountForMint(key.tokenMint);
        untrack := open == 0;
        assert untrack <==> OpenKeys(autoSell.Contents(), key.tokenMint) == {};
        report := SellSuccess(lastSig, amount, expectedAfter == 0);
      } else {
        report := SellFailed;
      }
    }

    method SkipSell(key: PositionKey)
      requires autoSell.Valid() && key in autoSell.Contents()
      modifies autoSell.positions.Values
      ensures autoSell.Valid()
      ensures autoSell.Contents() == old(autoSell.Contents())[key := AfterSkip(old(autoSell.Contents())[key])]
    {
      UpdateTwice(autoSell.Contents(), key, SkipZeroBalance, Fail);
      var skips := autoSell.RecordZeroBalanceSellSkip(key);
      if skips.Some? && skips.value >= MAX_ZERO_BALANCE_SKIPS {
        autoSell.ConfirmFailed(key);
      }
    }

    /** Releases the claim: closes the position, or puts its earlier state back. */
    method Settle(key: PositionKey, reason: SellReason, previous: PositionState, success: bool, lastSig: string)
      requires autoSell.Valid() && key in autoSell.Contents()
      modifies autoSell.positions.Values
      ensures autoSell.Valid()
      ensures autoSell.Contents() == Update(old(autoSell.Contents()), key,
        if success then Close(lastSig)
        else if reason != Manual && AttemptsExhausted(old(autoSell.Contents())[key])
          then Suspend(previous, MAX_AUTO_SELL_SIGNAL_ATTEMPTS)
          else Restore(previous))
    {
      if success {
        autoSell.MarkClosed(key, lastSig);
      } else {
        var current := autoSell.GetPosition(key);
        var capReached := current.Some? && AttemptsExhausted(current.value);
        if reason != Manual && capReached {
          autoSell.SuspendAutoSell(key, previous, MAX_AUTO_SELL_SIGNAL_ATTEMPTS);
        } else {
          autoSell.RestoreAfterSellAttempt(key, previous);
        }
      }
    }

    /** A manual sell of a percentage; everything goes through the full-sell path. */
    method HandlePartialSell(key: PositionKey, percent: nat, env: Surroundings, sent: bool, now: nat)
      requires autoSell.Valid() && |env.attempts| == MAX_SELL_RETRIES
      modifies autoSell.positions.Values
      ensures autoSell.Valid()
      ensures key in old(autoSell.Contents()) ==>
        var p := old(autoSell.Contents())[key];
        autoSell.Contents() == old(autoSell.Contents())[key :=
          if percent < 100 then AfterPartialSell(p, percent, sent, now)
          else if p.tokenAmount > 0 then AfterSellSignal(p, Manual, env)
          else p]
      ensures key !in old(autoSell.Contents()) ==> autoSell.Contents() == old(autoSell.Contents())
    {
      hide *;
      var before := autoSell.GetPosition(key);
      if before.Some? {
        PartialSellCases(autoSell.Contents(), key, percent, sent, now);
        SamePosition(autoSell.Contents(), key);
      }
      if before.None? || before.value.tokenAmount == 0 {
        return;
      }
      if percent >= 100 {
        var _, _, _ := HandleSellSignal(key, Manual, env);
        return;
      }
      var amount := before.value.tokenAmount * percent / 100;
      var claimed := autoSell.MarkSelling(key);
      if !claimed {
        return;
      }
      UpdateTwice(old(autoSell.Contents()), key, StartSelling, if sent then SellPart(amount, now) else Restore(before.value.state));
      if sent {
        autoSell.ApplyPartialSell(key, amount, now);
      } else {
        autoSell.RestoreAfterSellAttempt(key, before.value.state);
      }
    }
  }
}
