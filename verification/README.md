# Exit layer: a verified model

The exit layer lets the holder of a tokenised asset sell it early to a Liquidity Node for USDC.
Four contracts share the work: the vault holds the nodes' USDC and their terms, the router holds
the sellers' tokens and moves both legs of a sale, the queue remembers who is waiting, and the
auction drives the other three. A monitor indexes their events and rebuilds a public snapshot.

No contract states that the four ledgers agree. Here they are one transition system, every call
is shown to keep them in agreement, and the promises of the layer follow for whole runs: a
standing bid can be paid, nobody jumps the line, no token appears or disappears, the snapshot
rebuilt from the events is the state of the contracts, and the index survives crashes.

## How it is laid out

| modules | what is there |
|---|---|
| `Ledger`, `LpVault`, `SettlementRouter`, `FifoQueue`, `ExitAuction`, `Chain` | One module per contract and one for the host. A datatype holds the stored records and its members say what each entry point does; a class updates the records in place and is proved to do that. `Chain` makes calls, rollback and runs of them. |
| `Totals`, `Invariant`, `Settlement`, `Effects`, `Changes`, `Preservation`, `Reachable` | Sums over exits, the agreement of the ledgers (`Invariant.Inv`), exactly when each auction call succeeds, the five changes such a call can make, and that every call keeps `Inv`. |
| `Guarantees`, `Rules`, `Exposure`, `NoOvertaking`, `Prices`, `BackingAge`, `Withdrawals`, `Conservation`, `Payments`, `Rounding`, `SampleRun` | What follows for the people using the layer, and a short concrete run for the results that need one. `Rules` is the rule book: exactly when each of the fifteen calls succeeds, and what a refusal says, on the stored records alone. |
| `EventLog`, `SnapshotRows`, `SnapshotBuild`, `Mirror`, `MirrorAssets`, `MirrorNodes`, `SnapshotRefines`, `Tallies`, `BidHistory`, `SnapshotTheorems` | The snapshot. `NodeRowOf`, `AssetRowOf` and `ExitRowOf` give the history of one record by itself; the build mutates all records at once and is proved to show those histories; the histories are proved to mirror the contracts, and every count in them to be the number of calls, quotes or exits it stands for. |
| `Indexer`, `CrashSafety`, `HowFar`, `ReEntry`, `EventCount`, `CompleteFlag`, `IndexExamples`, `EndToEnd` | The indexing pass over a disk that can be left at any write, how far it reads and what it then saves, what its log, its saved count and its `complete` flag are worth, and the path from a run of the contracts through the index to the snapshot. |

A state is reachable when some sequence of calls leads to it from `Chain.Genesis`. Theorems are
stated either from `Genesis` over all runs, or under `Inv`, which `Reachable.ReachableHolds`
gives for every reachable state. Sellers, nodes, bidders and the treasury may coincide, and the
sold asset may be USDC itself; only the four contract addresses are distinct from everybody.

## Results worth knowing before reading

* contracts/exit_auction/src/lib.rs:300-301 lets the seller cancel at any time before a fill. The
  code refuses when the bidder has reported more divested than it holds: `Exposure.CancelExactlyWhen`
  gives the exact condition, `Exposure.OverReportingBlocksCancel` shows that any bidder can bring
  the refusal about, `Exposure.CancelCanBeRefused` is a six-call run from a fresh deployment that
  does, and `Exposure.HonestReportsNeverBlock` shows that honest reports never do.
* monitor/README.md:70-72 gives a rule for a node's present deposit. It holds exactly when nothing
  had been paid out before the last report (`SnapshotTheorems.DocumentedBalanceExactlyWhen`);
  `SnapshotTheorems.DocumentedBalanceReadsLow` gives the error after any later deposit, and
  `SnapshotTheorems.DocumentedBalanceOnce` a concrete run.
* The comment at monitor/index.js:105-107 says that re-entering at a ledger already reached loses
  nothing. It does when the cursor is rejected inside a ledger: the pass re-enters at the next one.
  `IndexExamples.RejectionInsideALedgerLosesEvents` is a whole pass, served faithfully, from a disk
  that one page leads to (`IndexExamples.HalfwayIsReached`), after which
  an event is missing, the saved cursor is past it, and `complete` is still true;
  `ReEntry.ReEntryIsSafeExactlyWhen` and `CompleteFlag.FlagIsRightExactlyWhen` give the exact
  condition.
* The saved event count is the length of the log exactly when no pass died between an append and
  its save and no reset cleared a state that had counted something
  (`EventCount.CountIsTheLengthExactlyWhen`). Once short, it stays short; `IndexExamples.OneUncounted` is
  the smallest case.
* The flag `complete` (monitor/snapshot.js:287-290) can be up over a hole. `CompleteFlag.FlagMeansNoGapExactlyWhen`
  says exactly when, for all runs: a flag that is up, and that the next pass keeps, is right if and only
  if the index has not slipped since its last cold start. It slips in two ways, each with its own
  exact condition and its own example:
  by a cold start, after a reset or a death before the first save, on a log that retention has left
  behind (`CompleteFlag.ColdStartIsRightExactlyWhen`, `IndexExamples.ResetRaisesFlagOverHole`); and by
  being left inside a ledger with no cursor to resume from, as when the RPC rejects it
  (`CompleteFlag.FlagIsRightExactlyWhen`, `IndexExamples.RejectionInsideALedgerLosesEvents`). Apart from that, a pass that takes the flag down and
  dies before its first save can leave it up, until the next pass; `CompleteFlag.FlagLeftUpExactlyWhen`
  says exactly when.
* contracts/exit_auction/src/lib.rs:177 says the highest gross bid wins, full stop. A bidder that
  over-reports also locks every rival out, at any price: `Exposure.OverReportingLocksOutRivals`;
  `Exposure.HighestBidWinsExactlyWhen` has the exact condition, read off the run.
* monitor/snapshot.js:235-238 says a queued exit can leave its line without a `dequeued` event.
  The contracts always publish one, so the final filter removes nobody (`SnapshotTheorems.FilterIsANoOp`).

## Model

| member | source | states |
|---|---|---|
| Ledger.TransferMoves | contracts/settlement_router/src/lib.rs:284-294 | A token transfer is made exactly when its payer has the amount; it changes exactly its two parties' balances by it, and nothing when they are the same party |
| LpVault.Vault.Deposit | contracts/lp_vault/src/contract.rs:113-143 | The in-place entry point does what the specification says: funds move, the total grows, the new total is published, or the same error is returned |
| LpVault.Vault.RequestWithdrawal | contracts/lp_vault/src/contract.rs:147-171 | One pending request at a time, only of uncommitted deposit, unlocked after the timelock (`Withdrawals.TimelockIsExact` says what that comes to) |
| LpVault.Vault.CancelWithdrawal | contracts/lp_vault/src/contract.rs:173-185 | The pending request disappears, nothing else changes |
| LpVault.Vault.ExecuteWithdrawal | contracts/lp_vault/src/contract.rs:187-218 | The requested amount leaves once unlocked and still uncommitted; the request is cleared |
| LpVault.Vault.SetAppetite | contracts/lp_vault/src/contract.rs:224-273 | Terms are replaced, exposure is kept, the age restarts only when a backing is armed or re-armed |
| LpVault.Vault.ReduceExposure | contracts/lp_vault/src/contract.rs:280-299 | The self-reported reduction, clamped at zero exposure |
| LpVault.Vault.Commit | contracts/lp_vault/src/contract.rs:310-365 | All the checks of a bid's backing, in order, then commitment and exposure grow by the amount |
| LpVault.Vault.Release | contracts/lp_vault/src/contract.rs:368-394 | Commitment and exposure shrink by the amount, or the call underflows and is refused |
| LpVault.Vault.PayOut | contracts/lp_vault/src/contract.rs:405-440 | Committed USDC leaves; exposure is kept, since the node now holds the asset |
| LpVault.Vault.QuoteCapacity | contracts/lp_vault/src/contract.rs:482-522 | The largest amount that meets the node's terms, free deposit, ceiling and cap, written out as inequalities; a commit in this state succeeds for every positive amount up to it and for no other, also with negative headroom |
| LpVault.CommitsExactlyWhen | contracts/lp_vault/src/contract.rs:322-351 | The vault commits exactly when the backing is on, aged and takes the discount, the deposit covers it beside commitments and a pending withdrawal, the exposure stays under the ceiling, and amount * 10000 <= deposited * cap, unrounded |
| SettlementRouter.SettlementRouter.Escrow | contracts/settlement_router/src/lib.rs:211-250 | The seller's tokens are held and recorded once per exit |
| SettlementRouter.SettlementRouter.Settle | contracts/settlement_router/src/lib.rs:259-317 | Net, fee and tokens move in one call, and the escrow shrinks by what was delivered or disappears |
| SettlementRouter.SettlementRouter.Refund | contracts/settlement_router/src/lib.rs:322-342 | Whatever is left of the escrow goes back and the record is removed |
| FifoQueue.FifoQueue.Enqueue | contracts/fifo_queue/src/lib.rs:99-123 | Joins at the back, at most once, up to the depth limit, and returns the place |
| FifoQueue.FifoQueue.Dequeue | contracts/fifo_queue/src/lib.rs:127-152 | Removes exactly this exit; everybody else keeps their order |
| FifoQueue.Rebuild | contracts/fifo_queue/src/lib.rs:136-141 | The copying loop yields the line without exactly the given place |
| FifoQueue.FifoQueue.PositionOf | contracts/fifo_queue/src/lib.rs:156-160 | The first place of the exit, or none exactly when it is not in line |
| ExitAuction.ExitAuction.OpenExit | contracts/exit_auction/src/lib.rs:229-285 | Validates the terms, escrows the position and records an open exit under the next id |
| ExitAuction.ExitAuction.PlaceBid | contracts/exit_auction/src/lib.rs:339-383 | Commits the new bid, then releases the one it beats, then records it |
| ExitAuction.ExitAuction.AcceptBid | contracts/exit_auction/src/lib.rs:290-298 | The seller takes the standing bid of a live exit |
| ExitAuction.ExitAuction.Close | contracts/exit_auction/src/lib.rs:388-412 | After the window, the exit fills if it may and joins the line otherwise |
| ExitAuction.ExitAuction.Cancel | contracts/exit_auction/src/lib.rs:302-326 | Releases the bid, leaves the line, returns the tokens, ends the exit |
| ExitAuction.ExitAuction.Fill | contracts/exit_auction/src/lib.rs:492-510 | Reserve and head checks, then settlement of the whole position and leaving the line |
| Chain.Layer.Execute | contracts/exit_auction/src/lib.rs:290-379 | A call that fails anywhere, however deep, leaves all four contracts and all balances as they were |
| Settlement.FeeBounds | contracts/settlement_router/src/lib.rs:276-278 | The fee is the exact floor of its share and leaves a positive net for every positive gross |
| Settlement.SettleEffect | contracts/settlement_router/src/lib.rs:259-317 | Exactly when a settlement succeeds, and every record, event and balance it changes, partial or whole, under any aliasing of the parties |
| Effects.TurnMeansNobodyAhead | contracts/exit_auction/src/lib.rs:481-488 | It is an exit's turn exactly when no other exit is queued on its asset ahead of it: for a queued one that is place 0, whoever stands behind; for an open one, that nobody is queued |
| Effects.FillEffect | contracts/exit_auction/src/lib.rs:492-510 | A fill succeeds exactly when there is a bid at or above the reserve and nobody is queued ahead on the asset; then all four ledgers change as stated |
| Effects.CancelEffect | contracts/exit_auction/src/lib.rs:302-326 | A cancel succeeds exactly for the seller of a live exit whose bid the vault will release |
| Effects.BidEffect | contracts/exit_auction/src/lib.rs:339-379 | A bid succeeds exactly when the exit takes bids, the price is beaten, the node's records back it, and the displaced bid can be released; a node raising its own never fails on the release |
| Effects.CloseEffect | contracts/exit_auction/src/lib.rs:388-412 | A close succeeds exactly on an open exit past its window that fills or finds a place in line |
| Effects.OpenEffect | contracts/exit_auction/src/lib.rs:229-285 | Opening fails only on bad terms or a short balance: the router never finds the id taken |
| Changes.CallMakes | contracts/exit_auction/src/lib.rs:229-412 | Every successful auction call is one of five changes to one exit, each stated in full over all four contracts |
| Reachable.StepKeeps | contracts/exit_auction/src/lib.rs:229-412 | Every call keeps the ledgers in agreement: commitments and fills against exits, escrows against live exits, lines against queued exits, balances against records, limits and clocks |
| Reachable.ReachableHolds | contracts/lp_vault/src/contract.rs:154-162 | The agreement, including deposited - committed - pending withdrawal >= 0 for every node, holds in every reachable state |
| Reachable.SurplusIsGifts | contracts/settlement_router/src/lib.rs:231-236 | Over any run, vault and router hold exactly deposits and escrows plus what outsiders sent them directly |
| Guarantees.StandingBidCanBePaid | contracts/exit_auction/src/lib.rs:290-298 | A seller's acceptance succeeds exactly when there is a bid at or above the reserve and no other exit is queued ahead on the asset; it then sells the exit, and no vault, router, queue or token error is left |
| Guarantees.FillMovesBothLegs | contracts/settlement_router/src/lib.rs:276-302 | The change of every balance at a fill, by acceptance or by a close, for every token and holder, roles added up when parties coincide |
| Guarantees.WithdrawalAlwaysExecutes | contracts/lp_vault/src/contract.rs:187-218 | An unlocked withdrawal always executes; its second balance check and the transfer never fail |
| Guarantees.FreeBalanceIsExact | contracts/lp_vault/src/contract.rs:463-477 | The clamp at zero is never used: the free balance is the exact difference |
| Guarantees.RaisingNeedsRoomForBoth | contracts/exit_auction/src/lib.rs:357-363 | A node raising its own bid needs free balance and headroom for the old and new one at once |
| Guarantees.WhoSettles | contracts/exit_auction/src/lib.rs:388-408 | An exit becomes settled only by its seller's acceptance or by a close after the window, at or above the reserve, first in line, and with the whole effect of a fill |
| Rules.AcceptedExactlyWhen | contracts/exit_auction/src/lib.rs:229-412 | For all fifteen calls: a call succeeds if and only if conditions on amounts, prices, places and times hold, written out on the records |
| Rules.RefusalIsExplained | README.md:32-34 | A refused call returns a code whose reason is true of the records, for every code and every call |
| Rules.WhoRefuses | contracts/exit_auction/src/lib.rs:229-412 | Which errors each auction call can still return: AlreadyEscrowed, NothingEscrowed, ExceedsEscrow, AlreadyQueued, NotQueued are unreachable through the auction, and a bid meets CommitUnderflow only from a standing bid of another node that reported its exposure away |
| Rules.BidTakenExactlyWhen | contracts/exit_auction/src/lib.rs:339-379 | A bid is taken if and only if the exit lives, its window is open or it is queued, the price beats the standing one, the node's backing, free deposit, ceiling, cap and unrounded floor price allow it, and a displaced rival still books its exposure |
| Rules.CloseServesExactlyWhen | contracts/exit_auction/src/lib.rs:388-412 | A close past the window settles the exit exactly when its bid is acceptable and nobody is queued on the asset, and puts it in the last place otherwise |
| Rules.FirstInLineIsServed | contracts/exit_auction/src/lib.rs:481-508 | After any run, the first exit of any line is sold at its seller's word, if and only if its bid is at or above the reserve |
| Rules.CallSetsOnly | contracts/settlement_router/src/lib.rs:195-204 | The clock, the fee rate and the single-fill cap move by the calls made for that and no other; nodes join at their first deposit and keep that time |
| Rules.ClockOverRuns | contracts/lp_vault/src/contract.rs:120-125 | Over any run the clock shows exactly the seconds that passed, and no node leaves or joins again |
| Exposure.ExposureLedger | contracts/lp_vault/src/contract.rs:245-262 | After any run, exposure = live bids + settled bids - what was really divested, per node and asset |
| Exposure.ExposureStep | contracts/lp_vault/src/contract.rs:280-299 | One call changes exposure exactly as the node's book, less what it divests: `reduce_exposure` is the only call that moves the difference |
| Exposure.CancelExactlyWhen | contracts/exit_auction/src/lib.rs:302-326 | A seller's cancel succeeds if and only if the bidder divested no more than it holds besides the bid being released |
| Exposure.HonestReportsNeverBlock | contracts/lp_vault/src/contract.rs:368-384 | While divested <= settled, every cancel succeeds and every standing bid can be displaced |
| Exposure.OverReportingBlocksCancel | contracts/lp_vault/src/contract.rs:291-296 | In any state with a standing bid, its bidder can over-report, after which the seller's cancel is refused |
| Exposure.CancelCanBeRefused | contracts/exit_auction/src/lib.rs:300-326 | A concrete run from a fresh deployment after which the seller of a live exit cannot cancel it |
| Exposure.OverReportingLocksOutRivals | contracts/exit_auction/src/lib.rs:357-363 | After that report no other node can displace the standing bid, at any price |
| Exposure.HighestBidWinsExactlyWhen | contracts/exit_auction/src/lib.rs:339-379 | A rival's higher and backed bid is taken if and only if the standing bidder divested no more than it holds besides that bid |
| NoOvertaking.ExitOverRuns | contracts/exit_auction/src/lib.rs:302-412 | Over any run an exit keeps its terms, never returns from queued to open, never changes once ended, and its bid only rises |
| NoOvertaking.LineStep | contracts/fifo_queue/src/lib.rs:99-152 | One call adds one exit at the back of a line, removes one, or leaves it alone |
| NoOvertaking.OrderOverRuns | contracts/fifo_queue/src/lib.rs:127-152 | Exits queued at both ends of a run keep their relative order and never move back |
| NoOvertaking.NobodyJumpsTheLine | contracts/exit_auction/src/lib.rs:481-508 | While an exit waits, no exit behind it, still open, or not yet opened is ever settled on that asset before it has left |
| NoOvertaking.StillQueued | contracts/exit_auction/src/lib.rs:397-408 | Leaving a line is final |
| Prices.SoldAtTheHighestBid | contracts/exit_auction/src/lib.rs:352-366 | Bids accepted on an exit strictly increase; a sale is to the author of the highest, at that price, at least the reserve, and no other bid would have left the seller more at any fee |
| Prices.PriceOverRuns | contracts/exit_auction/src/lib.rs:357-379 | At every point of a run the standing bid is the last bid event of the exit |
| Prices.NetIsMonotone | contracts/settlement_router/src/lib.rs:356-364 | A higher gross never leaves the seller a lower net |
| Prices.QuoteCannotBeWithdrawn | contracts/exit_auction/src/lib.rs:339-379 | As long as the exit lives, the seller can take that price or better, whatever happened since |
| BackingAge.BackingWasActiveLongEnough | contracts/lp_vault/src/contract.rs:328-333 | Every accepted bid comes at least MIN_BACKING_AGE after the backing was last missing or off, however often its terms were edited |
| BackingAge.BackingKeepsItsAge | contracts/lp_vault/src/contract.rs:243-249 | While a backing stays active its age runs on, however often its ceiling and floor are edited |
| Withdrawals.NoWithdrawalBeforeTimelock | contracts/lp_vault/src/contract.rs:161-193 | From a state with nothing pending, no withdrawal of the node executes before the whole timelock has passed |
| Withdrawals.TimelockIsExact | contracts/lp_vault/src/contract.rs:161-218 | A request its node leaves alone executes from the second the timelock ends, not one before, whatever runs in between; it pays the amount asked for and is then gone |
| Withdrawals.WithdrawsTheLastRequest | contracts/lp_vault/src/contract.rs:147-218 | After any run the log says what can be withdrawn, and from when: the node's last request that it neither cancelled nor withdrew |
| Conservation.SupplyIsConstant | contracts/settlement_router/src/lib.rs:284-294 | No run changes the total balance of any token |
| Payments.EveryUsdcIsAccounted | contracts/lp_vault/src/contract.rs:405-440 | deposits - withdrawals - filled = deposited for every node, filled = payouts in its name = its settled bids, proceeds + fees = all settled gross, and everybody was paid theirs by the vault |
| Payments.EventsExplainTheMoney | contracts/settlement_router/src/lib.rs:284-294 | Over any run every balance of every token is the initial one plus what the published events moved into it plus what was sent outside the layer; the vault's payouts to anybody are its proceeds as a seller plus, for the treasury, the fees |
| Rounding.DiscountInRange | contracts/exit_auction/src/lib.rs:518-523 | The discount of a positive bid lies in 0..9999, so the narrowing cast loses nothing |
| Rounding.FloorIsExact | contracts/lp_vault/src/contract.rs:334-336 | The floor check passes exactly when the bid is at or below the unrounded floor price |
| Rounding.DiscountIsAntitone | contracts/exit_auction/src/lib.rs:518-523 | A higher bid never shows a larger discount |
| Rounding.NobodyPaysAboveTheirFloor | contracts/exit_auction/src/lib.rs:356-358 | No accepted bid pays more than its node's own floor allows, to the last unit |
| Rounding.PartialFillsConserve | contracts/settlement_router/src/lib.rs:259-317 | Any sequence of fills of one escrow: delivered + remaining = escrowed, the router's tokens fall by exactly what was delivered, and the events carry every slice's net and fee |
| Rounding.FillsThenRefund | contracts/settlement_router/src/lib.rs:259-342 | Fills followed by a refund: the seller gets back exactly what was not delivered, and the router has let go of exactly what was escrowed |
| Rounding.RefundReturnsTheRest | contracts/settlement_router/src/lib.rs:322-342 | A refund pays exactly the rest and nothing can be drawn on that escrow again |
| Rounding.SlicedFees | contracts/settlement_router/src/lib.rs:276-278 | Fees of k slices are at most the fee on the total, and short of it by less than k |
| Rounding.QuoteIsPaid | contracts/settlement_router/src/lib.rs:356-364 | The quoted net is positive and is the amount of the seller's payout event |
| Rounding.QuoteIsExact | contracts/settlement_router/src/lib.rs:356-364 | A quote is given for exactly the positive amounts, and withholds the exact fee rounded down |
| SnapshotRows.Builder.Read | monitor/snapshot.js:101-233 | One turn of the mutating loop extends every record's own history by this event, or counts it as flagged and skips it |
| SnapshotRows.TrustedAppend | monitor/snapshot.js:101-105 | The build reads exactly the decoded events, in order |
| SnapshotBuild.FilterLine | monitor/snapshot.js:240-243 | The filter keeps exactly the places whose exit the log leaves queued, in order |
| SnapshotBuild.PlaceLine | monitor/snapshot.js:244-247 | Every listed exit gets its place in line, no other row changes |
| SnapshotBuild.RederiveLines | monitor/snapshot.js:239-248 | After the second loop every line and every place is re-derived from exit state |
| SnapshotBuild.Build | monitor/snapshot.js:101-248 | The whole build equals the per-record histories of the trusted events, with lines re-derived |
| SnapshotRefines.ChangeMirrored | contracts/exit_auction/src/lib.rs:255-379 | The events of every change move the histories of all records exactly as the change moves the contracts |
| SnapshotRefines.MirrorOverRuns | monitor/snapshot.js:101-233 | Over any run the histories read off the events keep mirroring exits, lines, counts and nodes |
| Tallies.TalliesCountCalls | monitor/snapshot.js:113-219 | Over any run the log shows deposits, withdrawals, bids, displaced bids, sales and queuings exactly as often as a successful call made one |
| Tallies.WonOverRuns | monitor/snapshot.js:181-202 | The settled exits on chain whose bid a node holds are as many as the sales made to it |
| BidHistory.ToldOverRuns | contracts/exit_auction/src/lib.rs:365-379 | Over any run every bid event names its exit's asset, its discount off the reference, and the author of the quote it displaces |
| BidHistory.RowCountsQuotes | monitor/snapshot.js:164-178 | A node's bids placed are its quotes summed over all exits, and its bids outbid are those of them that another quote followed |
| BidHistory.RowShowsQuotes | monitor/snapshot.js:164-169 | An exit's row counts its quotes and shows the last of them with its discount, also after a cancellation |
| BidHistory.SoldAtTheRate | monitor/snapshot.js:181-192 | The sale shown for an exit is of the whole of it, with the fee at the rate in force at the call that settled it |
| SnapshotTheorems.FilterIsANoOp | monitor/snapshot.js:235-243 | The running line of every asset is the contract's line, before and after the final filter |
| SnapshotTheorems.SnapshotShowsTheChain | monitor/snapshot.js:101-248 | After any run every exit has its on-chain status and standing bid, every asset its line in order, every node its terms and payouts; the fees shown, in all and by asset, are what the vault paid the treasury; fills are settled exits held, bids and displaced bids are counted quotes, deposits and withdrawals are successful calls, each sale is shown at its rate; transient states never survive; the settled volume is the chain's |
| SnapshotTheorems.ProtocolCounts | monitor/snapshot.js:295-303 | The number of rows in each state equals the number of exits in that status on chain |
| SnapshotTheorems.VolumeIsTheSumOfPayouts | monitor/snapshot.js:142-202 | Settled volume = sum of the nodes' payouts shown = sum of `filled` on chain |
| SnapshotTheorems.DocumentedBalanceExactlyWhen | monitor/README.md:70-72 | The documented balance rule holds if and only if nothing was paid out before the last report |
| SnapshotTheorems.DocumentedBalanceReadsLow | monitor/README.md:70-72 | After a fill and a later deposit the rule reads low by exactly what had been filled |
| SnapshotTheorems.DocumentedBalanceOnce | monitor/README.md:70-72 | One sale and one more deposit, from a fresh deployment: the rule reads 1900 where the vault has 1950 |
| Indexer.Monitor.Dedup | monitor/index.js:121-130 | The batch is the page without what was seen, in order, and the seen set grows by it |
| Indexer.Monitor.ReadPage | monitor/index.js:120-149 | Append, then save, then decide to go on; dying before either write leaves the disk of that moment |
| Indexer.Monitor.Pass | monitor/index.js:57-156 | The whole loop leaves exactly the disk the specification gives, for every point of death, and reports a death exactly when the saved state counts no further pass |
| CrashSafety.FreshIsTheTail | monitor/index.js:86-130 | What is new in a re-read stretch of history is exactly what lies past the log's end |
| CrashSafety.PassKeeps | monitor/index.js:86-156 | One pass, dying anywhere, keeps the log a gap-free run of history at least up to the cursor, and only extends it |
| CrashSafety.LogIsAPrefixOfTheChain | monitor/index.js:57-156 | For every interleaving of passes, crashes and state resets, also after retention has moved, the log is duplicate-free, in order, without gaps from the start, up to its end and the saved cursor |
| HowFar.PassReadsToTheTip | monitor/index.js:92-156 | A pass that lives and is served faithful pages reads on until a cursor has reached the ledger before the newest, or the page limit; it then holds every event up to its cursor, and at the tip every event below that ledger; what it saves is told field by field |
| HowFar.PageDoes | monitor/index.js:120-149 | What one page appends and saves, and that the pass then ends exactly when it is caught up or the page has no cursor |
| HowFar.RejectionDoes | monitor/index.js:94-116 | A rejected cursor is dropped; the flag stays up exactly when nothing is skipped, and the next request is by the next ledger still retained |
| HowFar.FailureDoes | monitor/index.js:96-117 | Any other failure ends the pass with nothing further written and no pass counted |
| HowFar.EntersAt | monitor/index.js:60-84 | Where a pass enters, and with which flag, from every saved state |
| HowFar.NothingIsLoggedTwice | monitor/index.js:86-130 | Whatever the RPC serves, faithful or not, and wherever passes die, no event id is ever logged twice |
| HowFar.FreshOnce | monitor/index.js:121-130 | What is new in any page is every id not seen before, once |
| HowFar.LastLedgerNeverRunsAhead | monitor/index.js:109-148 | Over any sessions the saved last ledger is no higher than the highest ledger met in an event, a cursor, a start or the retention |
| ReEntry.ReEntryIsSafeExactlyWhen | monitor/index.js:94-116 | Entering by ledger leaves the saved disk right if and only if nothing unread lies below that ledger, or the page brings neither events nor a cursor |
| IndexExamples.RejectionInsideALedgerLosesEvents | monitor/index.js:102-116 | Two events of one ledger, the cursor rejected between them: after one faithful pass the second is not logged, the saved cursor covers it, and `complete` is still true |
| IndexExamples.HalfwayIsReached | monitor/index.js:120-145 | The disk that example starts from is what one page leaves on an empty disk |
| EventCount.CountIsTheLengthExactlyWhen | monitor/index.js:132-145 | The saved count is the length of the log if and only if no pass died between an append and its save and no reset cleared a state that had counted something |
| EventCount.PassCount | monitor/index.js:120-145 | A pass leaves the count as far behind as it was if and only if it does not die between an append and its save |
| EventCount.CrashLeavesCountShort | monitor/index.js:132-145 | A death after any append of a pass leaves the count short, whatever runs later |
| IndexExamples.OneUncounted | monitor/index.js:132-145 | One page on an empty disk and a death before the save: one entry is never counted |
| EventCount.ResetLeavesCountShort | monitor/index.js:177-182 | So does a reset after anything was counted, with no death |
| EventCount.UncountedNeverShrinks | monitor/index.js:137-145 | Over any sessions the gap between the log's length and the saved count never shrinks, and stays the same exactly when no session loses count |
| CompleteFlag.FlagMeansNoGapExactlyWhen | monitor/index.js:60-113 | For all sessions, also through lost retention, deaths and resets: a flag that is up and that the next pass keeps stands for a log without a gap if and only if, since the last cold start, no flag went up on a log it does not join and no pass was left to enter by ledger past an unread event with its flag up |
| CompleteFlag.FlagLeftUpExactlyWhen | monitor/index.js:80-84 | A pass that finds its position out of retention leaves the flag up over a hole if and only if its first page has events, starts past an unread one, and it dies between appending them and the save; the next pass does not believe that flag |
| CompleteFlag.ColdStartIsRightExactlyWhen | monitor/index.js:63-78 | A cold start on an existing log is right about the first page that says anything if and only if that log has no hole and nothing unread lies below the ledger it enters at |
| IndexExamples.ResetRaisesFlagOverHole | monitor/index.js:177-182 | A reset after retention has passed the end of the log: one faithful pass ends with an event missing, the cursor past it, and a flag the next pass keeps |
| CompleteFlag.FlagIsRightExactlyWhen | monitor/index.js:102-113 | After a rejected cursor a flag that stays up is right about the next page if and only if the log had reached the end of its last ledger, or the page says nothing |
| EndToEnd.SnapshotOfAnIndexedRun | monitor/index.js:158-167 | The snapshot of a caught-up index, whatever crashes it went through, is the state of the contracts |

## Left out

- Soroban host: storage lifetimes, archival, resource fees, wasm and signatures. A named caller makes the call; `accept_bid` and `cancel` compare the signer with the seller, and the checks that only the auction or the router may call are part of the wiring.
- Initialisation and wiring: the contracts start wired. The setters for admin, treasury, auction and router are not modelled; re-pointing a contract mid-run detaches the ledgers by design.
- Token contracts: one balance table; a transfer moves exactly its amount or is refused, with no re-entry, trustlines, freezing or clawback.
- Integer width: amounts, ids and times are unbounded; in the contracts an overflow aborts the call, which is a refused call here.
- Storage keys: stored entries are fields of type `map`; the exits, per-entry persistent records in the contract, are one map from id to exit.
- QuoteDiscount: `quote_discount_bps`, `depth`, `list` and the plain getters only read what the model's fields hold.
- Monitor plumbing: RPC transport, XDR decoding, file names, timestamps, asset names, the average discount, sorting, and the JSON shape of the snapshot. A record is either a decoded event or flagged.
- Torn appends: an append or a save happens whole or not at all. A later append after a torn line would join it, monitor/index.js:50-53 and 133.
- Rejected cursors: handled as the code does. CrashSafety assumes of each pass that, when it enters by ledger, nothing unread lies below it; `ReEntry.ReEntryIsSafeExactlyWhen` shows the assumption is the exact one.
- FlagMeansNoGapExactlyWhen: assumes that retention only moves forward and that no cold start begins before the start ledger.
- Pages: every page is a run of the final history from the requested position, up to its cursor or, when it has none, up to its last event.
- Start point: a log starts at or after a fixed ledger. Later cold starts, after a reset or a death before the first save, may enter at any later ledger, as long as nothing unread lies below it.
- Partial fills through the auction: the auction always settles the whole position, so the partial branch is proved on the router alone (`Rounding.PartialFillsConserve`).
- Faucet, deployment script, configuration and test snapshots.
