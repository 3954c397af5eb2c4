# A model of the trading engine

This project models the decision and state logic of a Solana copy-trading bot and proves what that logic keeps:
how a position lives and dies under concurrent actors, how wallets vote a buy into being, what the bonding-curve
quotes can and cannot do, how account lists are translated between buy and sell layouts, and the smaller
protocols around them. Check it with `dafny verify dfyconfig.toml`.

## How it is built

Each part has a value-level description (functions such as `Positions.Apply`, `Consensus.Submit`,
`AccountTracking.Untracked`) and, where the program changes state in place, a class whose methods are proved to
compute exactly that. The theorems about runs are then stated over the value-level steps.

| file | what it models |
|---|---|
| `Position.dfy`, `Bookkeeping.dfy` | the position object, its transitions, and what it holds and records over any history |
| `PriceHistory.dfy`, `ExitRules.dfy`, `Suspension.dfy` | price tracking, when each exit rule fires, and who still gets automatic signals |
| `Lifecycle.dfy` | one position under any number of sell executors, confirmers, the fallback monitor and the reaper |
| `Manager.dfy`, `FallbackLock.dfy` | the shared map, and the lock that late confirmation waits for |
| `SellExecutor.dfy`, `SellRefinement.dfy` | the sell loop with its fallback route, and sells and settlements as paths of the concurrent machine |
| `Confirm.dfy`, `SellConfirm.dfy` | the buy confirmer, and waiting for a sell |
| `Consensus.dfy`, `ConsensusRuns.dfy` | the voting engine and its invariants over runs |
| `ConsensusRefinement.dfy`, `ConsensusSoundness.dfy`, `ConsensusInputs.dfy` | its refinement of a history-based description, what stands behind a trigger in any run, and both in terms of what the votes asked for |
| `SignatureFilter.dfy` | deduplication of trade events in front of the engine |
| `CurveQuote.dfy`, `Wire.dfy`, `AccountLayout.dfy` | quotes, byte layouts, and account lists with their validator |
| `ClaimLock.dfy` | the buy claim with cooldown and reaper |
| `AccountTracking.dfy`, `TrackingRuns.dfy` | subscribed accounts, pruning and resubscription, call by call |
| `TrackingAccesses.dfy`, `TrackingRaces.dfy` | the same calls access by access, interleaved |
| `OpenMints.dfy`, `OpenMintOrder.dfy` | whether the accounts of a mint with an open position stay subscribed |
| `Prefetch.dfy` | the best-quality prefetch cache |
| `TextOrder.dfy`, `Groups.dfy`, `GroupRuns.dfy` | groups, and the hot reload of monitored wallets |

Prices are reals, amounts and times are natural numbers. Widths are explicit where they matter: the quotes and
the byte layouts are in `u64` and `u128`, the attempt counter wraps at 32 bits, the skip counters saturate.
Clocks are parameters; network answers (balances, statuses, sends) are inputs, so every theorem covers all of them.
Address derivation and base 58 are unknown functions, about which nothing is assumed. Operations that one map
guard covers are one step; those that make several separate accesses are several.

## What the proofs brought to light

In each of these the code is modelled as it is, and the exact condition is proved or the failing input exhibited,
in most cases both.

- A new buy replaces the entry of a position that is still being sold. Two executors can then sell the new one at
  once (`ReplacementBreaksExclusion`); exclusion holds exactly as long as no entry is replaced under its seller
  (`StepKeepsInv`), and each such replacement lets in at most one more (`SellersAreBounded`). A consumer with an old
  copy can fail the new position unsold (`OldCopyBuriesNewPosition`).
- Auto-sell suspension is a stop exactly for positions opened to follow. Their only automatic signals are the lifetime
  rule and the followed wallet's sell, and both read the attempt cap; any other active position with an entry price goes
  on getting stop-loss and take-profit signals after any number of failures (`SuspensionStopsFollowersOnly`,
  `SilentIff`, `SuspendedFollowerIsNeverSignalled`, `SuspendedPositionStillSells`). Suspending and restoring leave the
  same position at the point where the code suspends (`SuspendIsRestore`).
- Late confirmation never fills a position: it counts the open positions while it has its own entry locked, and waits
  for itself (`ReturnsIff`, `StuckForever`, `NoCountEnds`).
- A failed balance query confirms a sell, since it reads as an empty account (`UnsoldIsConfirmedIff`, `UnsoldIsClosed`).
- A position opened between the count after a sale of the same mint and the untracking that follows is left without its
  accounts, and likewise one opened while a pruner is at work (`SaleCleanupIff`, `PruneIff`, `StepKeepsInvIff`).
- With two executors one may read `Selling` as the state to return to and later put it back; nothing but a failure or
  a replacement then moves the position (`TwoExecutorsStrand`, `StrandedExactlyBy`, `StrandedIsNeverSold`). A partial
  sell whose share rounds to no token does the same on its own (`PartialSellStrandsIff`).
- Prefetching checks and inserts separately, so a trade that checked first overwrites the list of a consensus decision
  (`TradeOverwritesDecision`, `ForcedEntrySurvivesIff`).
- Tracking and untracking are several accesses each. Interleaved, they can leave an account subscribed that no prune
  ever finds (`RaceLeavesOrphan`, `OrphanStays`, `TwoCallsIff`), or tracked without a touch time (`MissedByScanIff`).
- The longer grace period of triggered consensus entries and the tie-break on executed signals never take effect
  (`CleanupRemovesIffAllExpired`, `ReplacementIsStrictIncrease`); a quorum of zero would let a rejection trigger
  (`RejectTriggersIffNoQuorum`).
- A revocation (offered by the engine, called nowhere) that arrives while an entry is triggered is lost, and the vote
  counts again after a retraction (`RevokedVoteTriggersAgain`).
- A withdrawn vote returns once the filter has forgotten its transaction (`WithdrawnVoteReturnsIff`,
  `PurgedVoteReturns`).
- A curve without lamports quotes the first buy at zero, so splitting a buy pays (`EmptyCurveRewardsSplitting`,
  `SplittingIsHarmlessIff`).
- A 17-slot cashback sell list is not recognised as one: translated to a buy, or rebuilt as a sell, it has accounts in
  the wrong slots (`CashbackSellBuysRightIff`, `RebuiltSellIff`). An old 17-slot buy list rebuilt as a sell names the
  token program as the creator's vault (`OldBuySellsRightIff`, `OldBuySellsToTokenProgram`).
- Without a curve the validator insists on the constant buyback account in slot 16, which the comment beside the
  trusted slots says rotates (`RotatedBuybackIff`, `RotatedMirrorIsRejected`).
- The buy confirmer takes the first sufficient balance of ours from the transaction, whatever its token
  (`DetailIsOfMintIff`, `OtherTokenIsBooked`).
- Groups that buy the same token at once are booked with their estimates, which need not add up to what came in
  (`SharedBookingsAddUpIff`); as long as bookings fit the shared account, its positions are sold without touching each
  other's tokens (`BookingsAreKeptApart`).
- Resubscription by count misses a swap of accounts, and a request that could not be sent counts as sent
  (`ChangeMissedIff`, `SwapGoesUnnoticed`, `LostRequestIsNotRetried`).
- Disabling a group does not change what is monitored (`TogglesAreInvisible`).
- The reaper takes the claim of a running execution exactly when nothing, not even a refused attempt, has touched it
  for thirty seconds (`StepKeepsInvIff`, `RefusedAttemptKeepsClaim`).

## Model

| member | source | states |
|---|---|---|
| Positions.Position.constructor | src/autosell/position.rs:116-148 | a new position is pending with one price for entry, high and market |
| Positions.Position.SetTokenAmountEstimate | src/autosell/position.rs:185-189 | an estimate fills in only an unknown amount |
| Positions.Position.MarkSubmitted | src/autosell/position.rs:196-213 | accepted exactly from pending; a refused call changes nothing |
| Positions.Position.MarkConfirming | src/autosell/position.rs:216-226 | accepted exactly from submitted |
| Positions.Position.MarkActive | src/autosell/position.rs:232-262 | accepted exactly from submitted or confirming; books the amount and restarts the prices at the entry price unless the amount is zero |
| Positions.Position.MarkSelling | src/autosell/position.rs:265-281 | accepted exactly from a sellable state; counts the attempt with 32-bit wrap-around and clears the zero-balance count |
| Positions.Position.MarkClosed | src/autosell/position.rs:284-298 | accepted exactly from selling; records the signature |
| Positions.Position.MarkFailed | src/autosell/position.rs:301-311 | unconditional, from any state, as the code has it |
| Positions.Position.RevertToActive | src/autosell/position.rs:314-325 | accepted exactly from selling |
| Positions.Position.RestoreAfterSellAttempt | src/autosell/position.rs:327-330 | unconditional return to the state handed in |
| Positions.Position.SuspendAutoSell | src/autosell/manager.rs:122-138 | returns to the state handed in and raises the attempt count to the cap |
| Positions.Position.RecordZeroBalanceSellSkip | src/autosell/position.rs:332-335 | saturating count of skipped sells |
| Positions.Position.ApplyPartialSell | src/autosell/position.rs:337-352 | refused, with nothing changed, for no tokens or more than held; otherwise deducts, re-anchors the high and makes the position active from any state |
| Positions.Position.UpdatePrice | src/autosell/position.rs:358-366 | the market price is the one given, the high follows it upwards, and the answer says whether it did |
| Positions.Position.UpdateEntryPrice | src/autosell/manager.rs:86-91 | an entry correction also lifts the high |
| PriceHistory.HighIsPeakSinceAnchor | src/autosell/position.rs:250-251 | over every history the high is the maximum of the prices and corrections since the last activation or partial sell, and never below the market price |
| PriceHistory.TrailingStopHasAPeak | src/autosell/manager.rs:539-598 | a trailing stop implies an active position in profit and a price since the last anchor from which the market fell by the configured share |
| PriceHistory.TrailingRule | src/autosell/manager.rs:578-594 | what a trailing stop means, cleared of divisions; the converse is in the next row |
| ExitRules.TrailingIff | src/autosell/manager.rs:578-594 | the trailing stop fires exactly between stop-loss and take-profit price, above the entry, when the market has fallen from the high by the configured share of it |
| ExitRules.TrailingOverHistory | src/autosell/manager.rs:539-598 | over every history: exactly if the market has so fallen from some price since the last anchor |
| ExitRules.LifetimeFromCreation | src/autosell/manager.rs:543-556 | over every history of a new position the lifetime signal comes exactly from its creation time plus the limit in seconds on, while it is active or confirming and has been claimed fewer than five times |
| ExitRules.ExitDecision | src/autosell/manager.rs:539-598 | the whole decision for an active position with an entry price, in prices and seconds |
| ExitRules.OtherwiseDecision | src/autosell/manager.rs:539-598 | the whole decision for every other position |
| PriceHistory.StopAndProfitInPrices | src/autosell/manager.rs:562-576 | stop-loss and take-profit as conditions on the price, both directions, with the order of the rules deciding |
| Positions.ActivationPrice | src/autosell/position.rs:236-248 | the curve's price, or the price at which the tokens received cost what was paid |
| Bookkeeping.OpeningStays | src/autosell/position.rs:116-148 | over every history a position keeps the rules, lamports, prior balance and creation time it was opened with |
| Bookkeeping.HoldingAddsUp | src/autosell/position.rs:232-352 | over every history the holding and the partial sales since the last activation add up to the amount it confirmed |
| Bookkeeping.EntryPriceIsLatest | src/autosell/position.rs:236-250 | over every history the entry price is that of the last correction or of the last activation with tokens, whichever came later |
| Bookkeeping.EntryPriceIsUnique | src/autosell/position.rs:236-250 | which is one price |
| Bookkeeping.SignaturesAreLatest | src/autosell/position.rs:196-298 | over every history the signatures are those of the last submission and the last closing to go through |
| Bookkeeping.TimesAreLatest | src/autosell/position.rs:232-352 | the times are those of the last activation and the last partial sell to go through |
| Bookkeeping.PartialSellsCount | src/autosell/position.rs:345-347 | over every history of a new position the counter counts the partial sells that went through |
| Bookkeeping.SkipsCount | src/autosell/position.rs:332-335 | the skip counter counts the skipped sells since the last claim |
| Bookkeeping.ClaimsCount | src/autosell/position.rs:265-281 | the attempt counter counts the claims, unless a suspension raises it |
| Bookkeeping.GoesThroughIff | src/autosell/position.rs:196-325 | over every history of a new position, which operations go through, from the last move alone |
| Bookkeeping.PartialGoesThroughIff | src/autosell/position.rs:337-341 | a partial sell goes through exactly for some but no more than was confirmed and not sold since |
| PriceHistory.NoTrailingStopRightAfterPartialSell | src/autosell/position.rs:345-350 | after a partial sell no trailing stop fires, whatever else happens, before a new price or an entry correction |
| Suspension.FailedSignalsOnlyCount | src/tx/sell_executor.rs:506-779 | automatic signals that sell nothing do nothing to a position but raise its attempt count, over every sequence |
| Suspension.SuspendsFromFifthFailure | src/tx/sell_executor.rs:735-771 | the claim is given up by restoring for the first four failures and by suspending from the fifth on |
| Suspension.EmptySignalsFailAtFifth | src/tx/sell_executor.rs:463-482 | signals that find nothing in the account only count, and fail the position from the fifth in a row on |
| PriceHistory.ExhaustedExitIsExitWithoutLifetime | src/autosell/manager.rs:539-598 | once the attempts are used up, the exit rules answer as for a position without lifetime limit |
| Suspension.SuspendedPositionStillSells | src/autosell/manager.rs:562-570 | after any number of failed signals from the fifth on, a price raises a stop-loss exactly if it is at the stop-loss and the position was not opened to follow |
| Suspension.SilentIff | src/main.rs:845-861 | which positions, in whatever state, get no signal from the monitor or a followed wallet's sell, at any prices and times: the exact condition on state, attempts, rules and group |
| Suspension.SuspensionStopsFollowersOnly | src/main.rs:999-1015 | after five failures or more an active position with an entry price gets no automatic signal ever exactly if it was opened to follow |
| Suspension.SuspendedFollowerIsNeverSignalled | src/main.rs:845-861 | and such a follower gets none whatever operations it goes through, within the width of the attempt counter |
| Lifecycle.StepKeepsInv | src/autosell/manager.rs:50-152 | every step keeps mutual exclusion and the sale bound except exactly the replacement of an entry that somebody is selling, and a finished position stays finished until it is replaced |
| Lifecycle.ReplaceKeepsIff | src/autosell/manager.rs:50-61 | replacing an entry keeps mutual exclusion exactly if nobody is selling it |
| Lifecycle.ReplacementBreaksExclusion | src/main.rs:1262-1263 | an interleaving in which an entry is replaced under its seller and two executors then sell the new one at once |
| Lifecycle.SellersAreBounded | src/autosell/manager.rs:50-152 | in any run at all, each replacement under a seller lets in at most one more seller |
| Lifecycle.EveryRunIsSafe | src/tx/sell_executor.rs:484-779 | exclusion and sale bound over every interleaving of any number of actors in which no entry is replaced while somebody sells it |
| Lifecycle.AtMostOneSellerAndOneSale | src/autosell/position.rs:265-351 | in such a run from the start of a position: at most one executor between claim and release, while it holds the position is gone, selling or failed, and of each instance at most one full sale is reported and one closing made |
| Lifecycle.FinishedForever | src/autosell/position.rs:284-330 | a closed, failed or removed position with no holder stays so until it is replaced, and no further sale of it is reported, although failing and restoring are unguarded |
| Lifecycle.FailedIsRevivedOnlyByItsSeller | src/tx/sell_executor.rs:757-771 | a failed entry comes back to life exactly when its holder hands it back with an earlier state or books a partial sell, or a new position replaces it |
| Lifecycle.StepKeepsSoloInv | src/main.rs:644-648 | what the single signal consumer keeps at every step |
| Lifecycle.SignalLoopNeverStrands | src/main.rs:644-648 | with the single sequential consumer the position is selling only while the consumer is at it, over every run, replacements included |
| Lifecycle.StepPutsBackLiveIff | src/tx/sell_executor.rs:430-484 | the state the consumer will put back stays a live one except exactly when a new position replaces a finished one of which it has a copy |
| Lifecycle.SignalLoopFromStart | src/tx/sell_executor.rs:430-779 | so in every other run it is submitted, confirming or active whenever the claim succeeds |
| Lifecycle.OldCopyBuriesNewPosition | src/tx/sell_executor.rs:426-484 | a run in which such a copy makes the consumer claim the new position and fail it unsold |
| Lifecycle.StrandedExactlyBy | src/tx/sell_executor.rs:814-868 | with several executors, the steps after which a position is selling with no seller, both directions |
| Lifecycle.StrandedIsNeverSold | src/autosell/position.rs:265-270 | such a position is never sold again; it can only be failed or replaced |
| Lifecycle.TwoExecutorsStrand | src/tx/sell_executor.rs:426-430 | a concrete interleaving of two executors that strands the position |
| Manager.AutoSellManager.AddPosition | src/autosell/manager.rs:50-61 | inserts, replacing whatever the key held |
| Manager.AutoSellManager.GetPosition | src/autosell/manager.rs:166-168 | a copy of the entry, if there is one |
| Manager.AutoSellManager.ConfirmSuccess | src/autosell/manager.rs:75-84 | activation of one entry; every other entry and a missing key are left alone |
| Manager.AutoSellManager.UpdateEntryPrice | src/autosell/manager.rs:86-91 | entry correction of one entry |
| Manager.AutoSellManager.MarkSelling | src/autosell/manager.rs:93-99 | claims one entry; true exactly when it is there and sellable |
| Manager.AutoSellManager.MarkClosed | src/autosell/manager.rs:101-106 | closes one entry if it is selling |
| Manager.AutoSellManager.RestoreAfterSellAttempt | src/autosell/manager.rs:115-120 | restores one entry |
| Manager.AutoSellManager.SuspendAutoSell | src/autosell/manager.rs:122-138 | suspends one entry |
| Manager.AutoSellManager.ApplyPartialSell | src/autosell/manager.rs:140-145 | books a partial sell on one entry |
| Manager.AutoSellManager.ConfirmFailed | src/autosell/manager.rs:147-152 | fails one entry from any state |
| Manager.AutoSellManager.RecordZeroBalanceSellSkip | src/autosell/manager.rs:154-164 | counts a skip and returns the count, or nothing for a missing key |
| Manager.AutoSellManager.OpenPositionCountForMint | src/autosell/manager.rs:185-193 | the number of entries of the mint that are neither closed nor failed, over all groups |
| Manager.AutoSellManager.ConfirmFallback | src/autosell/manager.rs:399-442 | what late confirmation sets out to do: activated with the whole increase if no other open position shares the mint, else with the estimate; failed if the balance did not grow |
| FallbackLock.StuckForever | src/autosell/manager.rs:399-414 | once late confirmation counts, nobody gets at the shard of its entry, nothing in it changes and the count does not end, whatever the other tasks do |
| FallbackLock.ReturnsIff | src/autosell/manager.rs:399-442 | late confirmation of an entry returns exactly if the entry is gone or the balance did not grow, over every continuation |
| FallbackLock.NoCountEnds | src/autosell/manager.rs:399-428 | in no run is an entry filled by late confirmation |
| Manager.AutoSellManager.Reap | src/autosell/manager.rs:528-534 | removes exactly the closed and failed entries of sixty seconds or more |
| SellExecutor.SendsAreBounded | src/tx/sell_executor.rs:506-710 | for every sequence of answers at most one transaction per attempt and one more; nothing after a confirmation, at most one after a rejection |
| SellExecutor.BoundIsReached | src/tx/sell_executor.rs:506-710 | the bound is attained for every number of retries |
| SellExecutor.FourAreReached | src/tx/sell_executor.rs:506-710 | with the number of retries there is, four transactions are sent in the worst case |
| SellExecutor.SucceedsIff | src/tx/sell_executor.rs:506-710 | in terms of the routes' answers: a signal succeeds exactly if some attempt confirms on a route that gets its turn and none before it confirmed or was rejected |
| SellExecutor.SellsTheLargest | src/tx/sell_executor.rs:455-459 | the amount sold is the largest that both the account and the booking cover |
| SellExecutor.SellsTheBookingIff | src/tx/sell_executor.rs:455-459 | it is the booking exactly if there is one that the account covers, or nothing at all |
| SellExecutor.BookingsAreKeptApart | src/tx/sell_executor.rs:451-459 | any number of positions that share an account sell exactly their bookings one after another, if these fit |
| SellExecutor.Attempt | src/tx/sell_executor.rs:510-704 | one attempt over the two routes: what it sends and which outcome it reports |
| SellExecutor.SellWithRetries | src/tx/sell_executor.rs:506-710 | the loop: at most four transactions, success exactly when one was confirmed, and then with the signature of the last one sent |
| SellExecutor.SellSignalSettles | src/tx/sell_executor.rs:712-779 | a signal that claims the position closes it with that signature or leaves it as it was but for two counters, never in selling |
| SellExecutor.SuspendIsRestore | src/tx/sell_executor.rs:747-771 | suspending and restoring coincide exactly when the cap is already reached, which is the only case in which the code suspends |
| SellExecutor.PartialAmountBounds | src/tx/sell_executor.rs:792-796 | the share is the largest whole number of tokens within the percentage, and zero exactly below one token |
| SellExecutor.PartialSellStrandsIff | src/tx/sell_executor.rs:782-871 | a partial sell leaves the position in selling exactly when it was sent for a share that rounds to nothing; otherwise what is sold and what is left add up |
| SellExecutor.Executor.HandleSellSignal | src/tx/sell_executor.rs:426-780 | the whole signal on the shared map: new table, report with the largest amount that account and booking cover, transactions sent, and whether the mint is untracked |
| SellExecutor.Executor.SellClaimed | src/tx/sell_executor.rs:490-779 | sells a claimed position and releases the claim |
| SellExecutor.Executor.SkipSell | src/tx/sell_executor.rs:463-482 | a zero balance is counted, and fails the position at the fifth time |
| SellExecutor.Executor.Settle | src/tx/sell_executor.rs:712-771 | close, suspend or restore |
| SellExecutor.Executor.HandlePartialSell | src/tx/sell_executor.rs:782-871 | the whole manual sell on the shared map; a hundred percent takes the full-sell path |
| SellRefinement.SignalIsAPath | src/tx/sell_executor.rs:426-780 | the sequential method is a path of the concurrent machine: same position, executor idle, and a sale counted exactly when one is reported |
| SellRefinement.PartialSellIsAPath | src/tx/sell_executor.rs:782-871 | the same for a manual partial sell, which is never counted as a sale of the position |
| SellRefinement.ConfirmBuyIsAStep | src/tx/confirm.rs:301-453 | what the buy confirmer does to the table is one step of the concurrent machine |
| SellRefinement.FallbackIsAPath | src/autosell/manager.rs:374-442 | what late confirmation sets out to do is its two accesses in the concurrent machine |
| SellConfirm.WaitSellConfirm | src/tx/sell_executor.rs:308-423 | the outcome of polling for a sell: the first poll that settles anything decides, the cache before the status and the status before the query |
| SellConfirm.OutcomeIsUnique | src/tx/sell_executor.rs:308-423 | which leaves no choice |
| SellConfirm.EarlierSourceDecides | src/tx/sell_executor.rs:343-393 | in the deciding poll a cached balance outweighs a rejection, and a rejection the query |
| SellConfirm.RejectedIff | src/tx/sell_executor.rs:358-380 | rejected exactly if the first news of any kind is a rejection |
| SellConfirm.UnsoldIsConfirmedIff | src/tx/sell_executor.rs:384-404 | a sell by which no balance is ever seen to fall is confirmed exactly if some balance query fails before a rejection is seen |
| SellConfirm.ConfirmedWasSeen | src/tx/sell_executor.rs:343-404 | without failed queries a confirmation rests on a balance at or below the target |
| SellConfirm.UnsoldIsClosed | src/tx/sell_executor.rs:712-735 | a position of which nobody saw anything sold is then closed and reported as sold |
| Confirm.Judge | src/tx/confirm.rs:92-299 | the verdict of a polling run, characterised without the loop: the first poll that shows a rejection or a balance decides, the transaction's balances only if it landed and no poll did |
| Confirm.VerdictIsUnique | src/tx/confirm.rs:96-299 | that characterisation leaves no choice |
| Confirm.FillWasObserved | src/tx/confirm.rs:225-286 | a fill rests on a balance above the one before the buy that some source reported |
| Confirm.RejectionBeatsBalance | src/tx/confirm.rs:133-152 | a rejection wins over a balance found in the same poll |
| Confirm.RejectedIff | src/tx/confirm.rs:133-152 | rejected exactly if the first news of any kind is a rejection |
| Confirm.EarlierSourceIsBelieved | src/tx/confirm.rs:96-225 | in the deciding poll the cache before the status query is believed first, then the cache after it, then the queried balance |
| Confirm.PriceBoundsQuotes | src/processor/pumpfun.rs:240-274 | the curve's price values all its tokens at its lamports, and no quote is better than it in either direction |
| Confirm.DetailIsOfMintIff | src/tx/confirm.rs:256-283 | the transaction's list is not searched by token; exactly when its answer is of the bought token |
| Confirm.OtherTokenIsBooked | src/tx/confirm.rs:256-283 | a landed transaction whose list names another token first is booked with that token's balance |
| Confirm.EntryPrice | src/tx/confirm.rs:304-343 | a price is passed on exactly if the curve has one or something was paid; it is positive, and either the curve's or such that the tokens received cost what was paid |
| Confirm.ConfirmBuy | src/tx/confirm.rs:301-453 | the confirmer changes the table by exactly one activation or one failure of its own position |
| Confirm.SettledByFillIff | src/tx/confirm.rs:301-357 | activated exactly for a fill, with a positive amount, the whole increase if the position is alone |
| Confirm.SharedBookingsAddUpIff | src/tx/confirm.rs:345-357 | two groups that buy the same token at once are booked with their estimates, which add up to what came in exactly if the estimates do |
| Consensus.ReplacementIsStrictIncrease | src/consensus/engine.rs:310-344 | the score determines its four flags, so replacement is strict increase and the tie-break never decides |
| ConsensusInputs.ScoreIsLexicographic | src/consensus/engine.rs:310-326 | signals are compared by instruction, then accounts, then lamports, then execution |
| Consensus.CanonicalIsLastBest | src/consensus/engine.rs:159-164 | the imitated signal is the last of maximal score |
| Consensus.EarliestIsFirstSeen | src/consensus/engine.rs:167-172 | the first signature is that of the first of the earliest signals |
| Consensus.ConsensusEngine.SubmitSignal | src/consensus/engine.rs:70-206 | the new entry and the trigger sent, for every entry, signal and time |
| Consensus.ConsensusEngine.Retained | src/consensus/engine.rs:95-98 | the unexpired signals in order |
| Consensus.ConsensusEngine.Tally | src/consensus/engine.rs:359-379 | the counted signals in order |
| Consensus.ConsensusEngine.Pick | src/consensus/engine.rs:159-172 | the signal to imitate and the one seen first |
| Consensus.ConsensusEngine.RejectSignal | src/consensus/engine.rs:229-267 | removes the wallet's signal of that signature and recomputes the trigger flag; true exactly when it was there |
| Consensus.ConsensusEngine.RevokeSignal | src/consensus/engine.rs:208-227 | removes a wallet's vote from an untriggered entry only |
| Consensus.ConsensusEngine.CleanupAll | src/consensus/engine.rs:269-292 | one pass of the cleanup over all entries |
| ConsensusRuns.StepKeepsInv | src/consensus/engine.rs:81-181 | every operation keeps one vote per wallet and an untriggered entry below its quorum |
| ConsensusRuns.UntriggeredIsBelowQuorum | src/consensus/engine.rs:70-292 | the same over every run |
| ConsensusRuns.RejectOnlyRetracts | src/consensus/engine.rs:229-262 | in any reachable entry a rejection can take a trigger back but never set one |
| ConsensusRuns.RejectTriggersIffNoQuorum | src/consensus/engine.rs:247-251 | over every run, whatever quorums are asked for, a rejection triggers an untriggered entry exactly if its quorum is zero |
| ConsensusRuns.ReleaseMeans | src/consensus/engine.rs:229-292 | only a rejection or a removal by the cleanup untriggers an entry |
| ConsensusRuns.StaysTriggered | src/consensus/engine.rs:136-146 | an entry that is not released stays triggered over every run |
| ConsensusRuns.TriggersAlternate | src/consensus/engine.rs:159-206 | between two triggers of one key lies a retracting rejection or a removal by the cleanup |
| ConsensusRuns.CleanupRemovesIffAllExpired | src/consensus/engine.rs:275-290 | an entry is removed exactly when all its signals have expired; the doubled grace period for triggered entries never matters |
| ConsensusRefinement.DigestIsUnique | src/consensus/engine.rs:100-139 | each wallet's earliest signal of maximal score, in order of first appearance: these conditions determine a list |
| ConsensusRefinement.DigestStep | src/consensus/engine.rs:100-139 | one more vote turns the digest of a history into that of the longer one |
| ConsensusRefinement.EntryIsDigest | src/consensus/engine.rs:70-206 | absent expiry and rejection, an entry lists the digest of all votes until a quorum is first reached, and is triggered from then on |
| ConsensusRefinement.FiresAtFirstQuorum | src/consensus/engine.rs:157-206 | the engine sends a trigger exactly at the first vote that completes a quorum, and what it sends is computed from the digest |
| ConsensusRefinement.CountedVotesAreSound | src/consensus/engine.rs:346-379 | counted votes of a digest have distinct wallets and a best signal |
| ConsensusRefinement.TriggerIsSound | src/consensus/engine.rs:157-206 | every trigger names at least a quorum of distinct wallets and imitates a counted vote of maximal score |
| ConsensusSoundness.RunKeepsBacked | src/consensus/engine.rs:95-134 | over every run an entry lists only signals that were submitted and not reported failed since |
| ConsensusSoundness.TriggerNamesStandingVotes | src/consensus/engine.rs:157-206 | over every run with expiry, rejections, revocations and cleanups, a trigger names at least the quorum of distinct wallets, each with a counting vote that stands and is not expired, and imitates one of these votes; the vote that completes the quorum is not itself checked for age |
| ConsensusInputs.TermsOfOpening | src/consensus/engine.rs:81-89 | over every run an entry has the quorum and the timeout that its opening vote asked for |
| ConsensusInputs.TriggerMeetsOpening | src/consensus/engine.rs:157-206 | over every run a trigger is of the deciding vote's group and token and names at least as many distinct wallets as the opening vote asked for, each with a standing vote that carries an instruction or lamports or came through a wrapper, the deciding one or younger than the timeout asked for |
| ConsensusInputs.TriggerMeetsTerms | src/consensus/engine.rs:157-206 | the same where all votes ask for the same quorum and timeout, on inputs alone |
| ConsensusInputs.FiresAtQuorumOfVoters | src/consensus/engine.rs:70-206 | while none expires the trigger comes at the first vote with which as many wallets have a counted best vote as the first vote asked for, and names exactly these |
| ConsensusInputs.RevokedAre | src/consensus/engine.rs:208-227 | a revocation in time takes the wallet's votes and no others |
| ConsensusInputs.RevokedWalletIsNotNamed | src/consensus/engine.rs:208-227 | and no trigger names the wallet until it votes again |
| ConsensusSoundness.RevokedVoteTriggersAgain | src/consensus/engine.rs:214-216 | a run in which a revoked vote helps to trigger again |
| SignatureFilter.SignatureCache.ShouldSkipSignature | src/main.rs:1742-1765 | which copy of a transaction is dropped and what is remembered |
| SignatureFilter.SignatureCache.Purge | src/main.rs:555-561 | drops exactly the signatures not seen for ten seconds |
| SignatureFilter.AdmissionOrder | src/main.rs:1742-1765 | while a signature is remembered, the copies let through are a prefix of pre-execution then landed, or the landed one alone |
| SignatureFilter.CacheIff | src/main.rs:1742-1765 | over every run the cache says exactly which copies have come since the signature was last forgotten, that is, purged ten seconds or more after its last copy |
| SignatureFilter.AdmittedIff | src/main.rs:1742-1765 | a copy is let through exactly if no copy is remembered, or it is landed and no landed one is |
| SignatureFilter.StepBringsVoteIff | src/main.rs:1079-1116 | one event brings an absent vote into the entry exactly if it is a copy of it that is let through and accepted |
| SignatureFilter.WithdrawnVoteReturnsIff | src/main.rs:1079-1116 | after its transaction was reported failed a vote is back at some time exactly if a later copy of it is let through and accepted |
| SignatureFilter.VotesAgainOnlyIfForgotten | src/main.rs:555-561 | which takes a purge at least ten seconds after the last copy in between |
| SignatureFilter.WithdrawnVoteStaysOut | src/main.rs:1079-1097 | without one the vote stays out over every run |
| SignatureFilter.PurgedVoteReturns | src/main.rs:555-561 | a run with such a purge in which the vote returns |
| CurveQuote.SolToTokenQuote | src/processor/pumpfun.rs:254-263 | fits the machine widths, never divides by zero, and is the largest amount that keeps the reserve product from falling |
| CurveQuote.TokenToSolQuote | src/processor/pumpfun.rs:266-274 | the same for sells |
| CurveQuote.QuoteIsLargest | src/processor/pumpfun.rs:254-274 | an amount keeps the product exactly when it is at most the quote |
| CurveQuote.ProductNeverDecreases | src/processor/pumpfun.rs:254-274 | over every sequence of quoted buys and sells on updated reserves the product does not fall, and curve plus trader is conserved |
| CurveQuote.NoFreeLunch | src/processor/pumpfun.rs:254-274 | whoever ends with no fewer tokens has gained no lamports, and the other way round |
| CurveQuote.SplitNeverBeatsOneBuy | src/processor/pumpfun.rs:254-263 | for every list of amounts, buying them one after another yields no more than one buy of their sum, if the curve holds lamports |
| CurveQuote.EmptyCurveRewardsSplitting | src/processor/pumpfun.rs:255-257 | the input on which that fails: no lamports in the curve |
| CurveQuote.SplittingIsHarmlessIff | src/processor/pumpfun.rs:254-263 | splitting never pays exactly when the curve holds lamports or at most one raw token |
| AccountLayout.ReplaceKeyFacts | src/processor/pumpfun.rs:682-736 | an account of the source user becomes one of ours, any other is kept, and replacing a user by itself changes nothing |
| AccountLayout.SevenAreReplaced | src/processor/pumpfun.rs:682-736 | each of the seven accounts derived for the source user is replaced by one of ours |
| AccountLayout.BuildBuyFromMirror | src/processor/pumpfun.rs:752-834 | the emitted accounts with their flags are those of the key list; our wallet alone signs |
| AccountLayout.BuildSellFromMirror | src/processor/pumpfun.rs:858-955 | the same for sells, in both lengths |
| AccountLayout.FirstMismatch | src/processor/pumpfun.rs:287-303 | the first differing slot outside the skipped ones, or none if there is none |
| AccountLayout.AcceptedIff | src/processor/pumpfun.rs:379-439 | with the curve known, an 18-slot mirror is accepted exactly when it agrees with the native list outside the trusted slots |
| AccountLayout.RejectionMeans | src/processor/pumpfun.rs:379-439 | why an 18-slot mirror is turned away: no creator, or the first slot that differs outside the trusted ones |
| AccountLayout.OtherLengthsPassIff | src/processor/pumpfun.rs:390-413 | mirrors of any other length pass exactly from sixteen accounts on |
| AccountLayout.AcceptedMirrorBuysNatively | src/processor/pumpfun.rs:325-439 | then the buy emitted from it equals the native one outside slots 1, 9, 16 and 17 |
| AccountLayout.CurvelessAcceptedIff | src/processor/pumpfun.rs:441-495 | without the curve, an 18-slot mirror is accepted exactly when it agrees with what can be expected outside slots 1, 9 and 17 |
| AccountLayout.AcceptedWithoutCurveBuysNatively | src/processor/pumpfun.rs:441-495 | then the buy agrees with the native one there, slot 16 included, whatever the curve is |
| AccountLayout.RotatedBuybackIff | src/processor/pumpfun.rs:152-161 | another user's native buy with any buyback account is accepted with the curve, and without it exactly if that account is the constant one after replacement |
| AccountLayout.RotatedMirrorIsRejected | src/processor/pumpfun.rs:480-492 | one with a rotated buyback account is rejected without the curve |
| AccountLayout.NativeMirrorIsAccepted | src/processor/pumpfun.rs:161-439 | the native buy of any other user is accepted, unless a shared slot is one of that user's accounts |
| AccountLayout.RoundTripIff | src/processor/pumpfun.rs:752-955 | a 16-slot sell list translated to a buy for anyone and back is unchanged exactly when it has the fixed accounts in place and the carried slots survive replacement |
| AccountLayout.RoundTrip | src/processor/pumpfun.rs:682-955 | in particular when no carried slot is one of the source user's seven accounts |
| AccountLayout.RebuiltSellIff | src/processor/pumpfun.rs:899-921 | rebuilding a sell from its own list changes nothing, except for a cashback token, whose 17 slots are misread unless the last three coincide |
| AccountLayout.SellFollowsBuy | src/processor/pumpfun.rs:752-955 | the sell copied from a buy of ours names the same accounts, slot by slot |
| AccountLayout.OldBuySellsRightIff | src/processor/pumpfun.rs:899-912 | the sell from an old 17-slot buy list is the one from the full list exactly if token program and vault coincide, slots 14 and 16 do, and slot 15 holds the missing account |
| AccountLayout.OldBuySellsToTokenProgram | src/processor/pumpfun.rs:904-908 | from the old part of a native buy list it names the token program as the creator's vault |
| AccountLayout.ShortMirrorsLeaveBlanks | src/processor/pumpfun.rs:752-955 | a list of fewer than sixteen accounts leaves vault and token program blank; only a sell derives the second curve account from the mint |
| AccountLayout.CashbackSellBuysRightIff | src/processor/pumpfun.rs:793-814 | the buy copied from a 17-slot cashback sell equals the one copied from the plain sell of the same mirror exactly if vault and token program coincide and the last two accounts are the placeholders |
| AccountLayout.CashbackSellBuysWrongly | src/processor/pumpfun.rs:793-814 | so it differs for every vault other than the token program |
| AccountLayout.SynthesizedMirrorIff | src/processor/pumpfun.rs:113-149 | the buy made from a synthesized sell list is the native one with the authority in slot 17 exactly when replacement leaves the carried slots alone |
| AccountLayout.SynthesizedMirrorBuysNatively | src/processor/pumpfun.rs:113-149 | in particular when none of them is an account of the blank user |
| Wire.FromToLe | src/processor/pumpfun.rs:765-766 | little-endian decoding undoes encoding of every number that fits |
| Wire.ToFromLe | src/processor/pumpfun.rs:1473-1476 | and encoding undoes decoding of every byte string |
| Wire.BuildBuyData | src/processor/pumpfun.rs:763-766 | the instruction data of a buy, which the parser reads back unless an amount is zero |
| Wire.ParsesAsBuyIff | src/processor/pumpfun.rs:1457-1492 | the parser answers with a buy of these amounts exactly for their encodings, both non-zero, with anything after them |
| Wire.RequiresCurveIff | src/processor/pumpfun.rs:1504-1509 | exactly the exact-SOL instructions of a non-zero amount need the curve |
| Wire.CurveRoundTrip | src/processor/pumpfun.rs:202-236 | a curve laid out by hand is read back, whatever the discriminator and whatever follows |
| Wire.DecodesAlikeIff | src/processor/pumpfun.rs:202-236 | two accounts are read as the same curve exactly when they agree on the bytes that matter |
| ClaimLock.GroupMintDedup.TryStart | src/main.rs:107-133 | succeeds exactly when the key is free of a running buy and of a cooldown; always touches the claim |
| ClaimLock.GroupMintDedup.Finish | src/main.rs:135-146 | a submitted buy leaves a cooldown, any other leaves nothing |
| ClaimLock.GroupMintDedup.Reap | src/main.rs:148-156 | keeps exactly the running claims touched lately and the cooldowns not over |
| ClaimLock.StepKeepsInvIff | src/main.rs:107-156 | every step keeps lock and running executions in agreement, however long these last, except exactly a reaper tick when nothing has touched a running one's claim for thirty seconds |
| ClaimLock.RunKeepsInv | src/main.rs:563-569 | over every run without such a tick |
| ClaimLock.OneBuyAtATime | src/main.rs:286-320 | in every such run at most one execution per key runs, and none starts within 2500 ms of a submitted one |
| ClaimLock.StartsIff | src/main.rs:107-146 | over every such run an attempt gets the lock exactly if no execution of its key is running and the last submitted one ended at least 2500 ms ago or never |
| ClaimLock.LeftByReaperIff | src/main.rs:148-156 | a pass of the reaper leaves a claim exactly for the keys that are running or cooling down |
| ClaimLock.TimelyRunsAreValid | src/main.rs:148-156 | runs in which every execution ends within thirty seconds are such runs |
| ClaimLock.ReapedClaimLetsSecondIn | src/main.rs:148-151 | after such a tick the next attempt for the key starts a second execution beside the first |
| ClaimLock.RefusedAttemptKeepsClaim | src/main.rs:117-120 | a refused attempt touches the claim and so keeps it past thirty seconds |
| ClaimLock.ReaperIsUnobservable | src/main.rs:563-569 | removing all reaper ticks from a run changes the outcome of no attempt |
| AccountTracking.AccountSubscriber.TrackBondingCurve | src/grpc/account_subscriber.rs:157-168 | index, touch time and subscription of one curve address after an undisturbed call |
| AccountTracking.AccountSubscriber.TrackAta | src/grpc/account_subscriber.rs:171-182 | the same for a token account |
| AccountTracking.AccountSubscriber.UntrackMint | src/grpc/account_subscriber.rs:185-219 | removes exactly the addresses, caches and touch time of one mint |
| AccountTracking.AccountSubscriber.PruneStaleCandidateMints | src/grpc/account_subscriber.rs:222-245 | untracks exactly the mints that are neither active nor recently touched, and counts them |
| AccountTracking.AccountSubscriber.HandleAccountUpdate | src/grpc/account_subscriber.rs:369-438 | routes an update by the kind the address is subscribed as, and caches it under its mint |
| AccountTracking.BalanceReadsBack | src/grpc/account_subscriber.rs:416-422 | the balance is the eight bytes after mint and owner, and zero in a shorter account |
| AccountTracking.UntrackedTwice | src/grpc/account_subscriber.rs:240-242 | untracking mints one after another is untracking them together, in any order |
| TrackingRuns.AccountStream.ResubscribeTick | src/grpc/account_subscriber.rs:323-336 | resubscribes exactly when the count differs from the remembered one |
| TrackingAccesses.SoundAtIff | src/grpc/account_subscriber.rs:157-219 | for every interleaving of the single map accesses, an address ends up subscribed exactly if indexed, with a touch time, exactly if its last link, subscription and touch were each left standing alike |
| TrackingAccesses.TwoCallsIff | src/grpc/account_subscriber.rs:157-219 | however one tracking and one untracking call of a mint interleave, the exact order conditions under which the address ends up sound |
| TrackingAccesses.MissedByScanIff | src/grpc/account_subscriber.rs:187-213 | the same when the untracking scan missed the address |
| TrackingAccesses.RaceLeavesOrphan | src/grpc/account_subscriber.rs:157-219 | untracking between the first two accesses of tracking leaves an address that is subscribed but under no index |
| TrackingAccesses.UndisturbedTrack | src/grpc/account_subscriber.rs:157-182 | an undisturbed tracking call is its three accesses in a row |
| TrackingAccesses.UndisturbedUntrack | src/grpc/account_subscriber.rs:185-219 | an undisturbed untracking call is its removals, in whatever order its scans find the addresses |
| TrackingRaces.StepKeepsInv | src/grpc/account_subscriber.rs:157-245 | any number of calls under way at once, one access at a time: what they keep as long as no mint is tracked and untracked at once |
| TrackingRaces.EveryQuietMomentIsSound | src/grpc/account_subscriber.rs:157-245 | so in every such interleaving, whenever no call is under way, the subscribed addresses are those of the two indexes, and every tracked mint and cached balance has a touch time |
| TrackingRuns.OrphanStays | src/grpc/account_subscriber.rs:222-245 | no prune, untracking, update or tick ever takes an orphan off the list |
| TrackingRuns.EveryRunKeepsInv | src/grpc/account_subscriber.rs:157-245 | the same for calls one after another, together with updates and ticks |
| TrackingRuns.UntrackKeepsUnionIff | src/grpc/account_subscriber.rs:185-207 | without that, untracking breaks the union exactly when an address is shared with another mint |
| TrackingRuns.PruneKeepsExactlyTheLive | src/grpc/account_subscriber.rs:222-245 | from such a quiet state an undisturbed prune keeps exactly the addresses, touch times and balances of live mints |
| TrackingRuns.PruneIsCompleteIff | src/grpc/account_subscriber.rs:222-245 | from any state, all prunes leave only live addresses exactly if none is an orphan and every mint with an address has a touch time |
| OpenMints.HeldIffCounted | src/autosell/manager.rs:185-204 | the count after a sale and the pruner's list agree on which mints are open |
| OpenMints.StepKeepsInvIff | src/tx/sell_executor.rs:142-148 | every step keeps each mint with an open position heard and out of the hands of all cleanups, except exactly the opening of one that is not heard or in some hand, and a pruner's decision against one opened since it listed |
| OpenMints.OpenMintsStayHeard | src/main.rs:579-600 | over every other run, with any number of cleanups, sales and openings at once |
| OpenMintOrder.SaleCleanupIff | src/tx/sell_executor.rs:142-148 | however an opening and the cleanup after a sale interleave, among any other events, the account stays subscribed exactly if the count came after the position or the tracking after the untracking |
| OpenMintOrder.PruneIff | src/grpc/account_subscriber.rs:222-245 | the same against a pruner: exactly if the position was there when it listed, or the tracking came in time for its look at the touch times, or after its untracking |
| TrackingRuns.UpdateReachesItsMintOnly | src/grpc/account_subscriber.rs:385-435 | an update moves the cached state of its own mint and of no other |
| TrackingRuns.ChangeMissedIff | src/grpc/account_subscriber.rs:325-334 | a change is missed exactly when as many addresses came as went |
| TrackingRuns.SwapGoesUnnoticed | src/grpc/account_subscriber.rs:325-334 | a swap of one account for another is missed by every later tick |
| TrackingRuns.TrackOnlyTicksSync | src/grpc/account_subscriber.rs:323-336 | while accounts are only added, equal counts mean equal sets and every tick brings the stream up to date |
| TrackingRuns.LostRequestIsNotRetried | src/grpc/account_subscriber.rs:331-334 | a request that could not be sent is not sent again until the count changes |
| Prefetch.PrefetchCache.Check | src/processor/prefetch.rs:58-62 | the first access: the better entry that turns an unforced request away, if there is one |
| Prefetch.PrefetchCache.Insert | src/processor/prefetch.rs:102 | the second access |
| Prefetch.PrefetchCache.PrefetchToken | src/processor/prefetch.rs:47-104 | an undisturbed call keeps a better entry unless forced, else stores the new one; returns what is then stored |
| Prefetch.DerivedIsNative | src/processor/prefetch.rs:64-80 | a prefetched entry has the accounts that a native buy of the mint lists |
| Prefetch.UndisturbedOffer | src/processor/prefetch.rs:47-104 | an undisturbed call is its two accesses in a row |
| Prefetch.PrefetchCache.Remove | src/processor/prefetch.rs:127-129 | removes one mint |
| Prefetch.PrefetchCache.Cleanup | src/processor/prefetch.rs:131-140 | drops exactly the entries of the given age or more |
| Prefetch.InsertKeepsBestIff | src/processor/prefetch.rs:58-102 | an unforced insert keeps the best entry in the cache exactly if it has not been overtaken since its check |
| Prefetch.CacheIsLatestBest | src/processor/prefetch.rs:58-102 | in every interleaved run without an overtaken insert the stored entry is the latest of the best-scoring ones offered since the mint was last forced, dropped or swept |
| Prefetch.SignalQuality | src/main.rs:1767-1787 | at most 15, and each flag can be read off it |
| Prefetch.SameScoreAsConsensus | src/main.rs:1789-1796 | trades are scored for prefetching as for consensus |
| Prefetch.ForcedEntrySurvivesIff | src/main.rs:710-724 | the forced entry of a consensus decision stays throughout exactly if it is not dropped, does not expire, is not forced out by another decision, and no other insert of its mint is still under way whose check came before |
| Prefetch.TradeOverwritesDecision | src/processor/prefetch.rs:58-102 | an interleaving in which a trade replaces it |
| Groups.GroupManager.constructor | src/groups.rs:302-360 | whatever was saved, there is a group and the selected one exists: the saved choice if it is loaded, else the first |
| Groups.LoadedIsLastSaved | src/groups.rs:336-338 | each saved identifier is loaded with the last group saved under it |
| Groups.GroupManager.AllGroups | src/groups.rs:362-370 | all groups, strictly ordered by identifier |
| Groups.GroupManager.AllTargetWallets | src/groups.rs:372-382 | every wallet of every group, enabled or not, once |
| Groups.GroupManager.GroupsForWallet | src/groups.rs:384-389 | exactly the enabled groups that list the wallet, in order |
| Groups.GroupManager.SetSelectedGroup | src/groups.rs:404-411 | selects an existing group or reports that there is none |
| Groups.GroupManager.NextGroupId | src/groups.rs:543-551 | one more than the largest index in use |
| Groups.NextIdIsTakenIff | src/groups.rs:543-551 | the new identifier is in use exactly when the index wraps around and `g0` exists |
| Groups.GroupManager.AddGroup | src/groups.rs:418-429 | a new selected group that follows nobody |
| Groups.GroupManager.DeleteGroup | src/groups.rs:431-447 | succeeds exactly if the group exists and is not the last; selects the first remaining one if it was selected |
| Groups.GroupManager.SetGroupEnabled | src/groups.rs:449-457 | changes one flag of one group |
| Groups.GroupManager.AddWallet | src/groups.rs:459-471 | adds a wallet once; the followed wallets grow by it and nothing else |
| Groups.GroupManager.RemoveWallet | src/groups.rs:488-505 | removes the first occurrence, or reports which of group and wallet is missing |
| GroupRuns.TogglesAreInvisible | src/groups.rs:372-389 | over every run of edits and syncs, enabling and disabling groups changes neither the monitored wallets nor the announcements |
| GroupRuns.DisabledWalletStaysMonitored | src/groups.rs:372-382 | so a wallet that only a disabled group lists stays monitored, for nobody |
| GroupRuns.StillMonitoredIff | src/groups.rs:488-505 | a removed wallet is still monitored after a sync exactly if another group lists it or the group listed it twice |
| TextOrder.NormalizeIsCanonical | src/grpc/subscriber.rs:88-92 | sorting and removing neighbouring repeats gives a strictly sorted list of the same wallets |
| TextOrder.StrictlySortedIsUnique | src/grpc/subscriber.rs:88-92 | there is only one such list |
| TextOrder.NormalizeAlikeIff | src/grpc/subscriber.rs:98-103 | two lists normalize alike exactly when they have the same wallets |
| TextOrder.ParseOfDecimal | src/groups.rs:547-550 | parsing undoes printing of every group index that fits 64 bits |
| Groups.GrpcSubscriber.UpdateTargetWallets | src/grpc/subscriber.rs:98-108 | reports and announces a change exactly when the set of wallets is a different one |
| Groups.SyncTick | src/main.rs:605-617 | after a pass the monitored list is the one sorted list of all groups' wallets |

## Left out

- gRPC, RPC, Jito, Jupiter and HTTP calls, signing and sending: their answers are inputs of the model.
- Telegram, formatting, logging, environment parsing, blockhash and SOL/USD refresh: text and plumbing.
- The PumpSwap and Raydium processors: straight-line builders with placeholder minimum outputs.
- Persistence of positions and groups: saving is lossy and positions are not loaded back; the group loader is modelled from the parsed groups on.
- Rounding and NaN of `f64`: prices are reals.
- The estimate in `buy_from_target_instruction`, and the correction of the entry price from the transaction's lamports: float arithmetic; the correction is an event with any price.
- PDA, ATA and base-58 arithmetic: derivation is unknown functions, so collisions appear as explicit conditions.
- The trade parser of `src/grpc/subscriber.rs` and the transaction builder's ordering.
- `src/group_stats.rs`, the token blocklist, renaming and replacing a group: single assignments.
- The single-flight table for curve fetches in `src/main.rs`: a set with one insertion and one removal per fetch.
- Conservation of a token account shared by any number of groups: bookings of shared positions are estimates, so there is no such law; `SharedBookingsAddUpIff` says when two of them add up.
- Positions.Position.MarkSelling: a counter overflow panics in a debug build; the model wraps, as a release build does.
- Groups.GroupManager.NextGroupId: the same holds for the index after the largest 64-bit one.
- Manager.AutoSellManager.ConfirmFallback: states what the path would do; where the balance has grown the original waits for its own write guard on the way, which `FallbackLock` states. `Lifecycle` lets that branch happen, so its theorems cover more than the runs there are.
- FallbackLock.ReturnsIff: rests on the map being sharded behind locks that are not reentrant, as DashMap documents; the other tasks' guards are taken one at a time.
- SellConfirm.WaitSellConfirm: how many polls fit in the window is an input; the last test of the loop, for a balance equal to the target, comes after the test for at most the target and never succeeds, so it is not there.
- OpenMints.StepKeepsInvIff: tracking and untracking are one access each there, as is a count or list of the open positions; the interleavings inside them are in `TrackingAccesses` and `TrackingRaces`.
- Suspension.SilentIff: the monitor's prices are inputs; that it has none for a mint whose curve is neither cached nor quoted is not part of this model.
- Prefetch.PrefetchCache.PrefetchToken: the contract is for an undisturbed call; the lemmas on runs treat its check and its insert as separate accesses.
- AccountTracking.AccountSubscriber.TrackBondingCurve: likewise, as for the other tracking methods; the interleavings are in `TrackingAccesses` and `TrackingRaces`.
- The scan of an index, and of the map of touch times, is one access, where the original reads shard by shard.
- Concurrent group edits: all of them come from one command loop, so they are single steps.
- The fallback monitor's time limit before it picks a position: the runs of `Lifecycle` include earlier picks.
- Confirm.Judge: how many polls fit in the ten seconds is an input.
- ConsensusRefinement.EntryIsDigest: covers votes of which none has expired; with expiry, rejections and revocations `ConsensusSoundness` says what stands behind a trigger, but not that the list is the digest.
- AccountTracking.AccountSubscriber.HandleAccountUpdate: the address arrives decoded; a key of the wrong length is dropped before.
- CurveQuote.ProductNeverDecreases: runs are over unbounded naturals, so they include every run that stays within 64 bits.
