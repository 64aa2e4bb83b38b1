# nom-indexer: a verified model

This project models the parts of the NoM indexer whose correctness is not visible in one function, and proves
what they promise.  `dafny verify dfyconfig.toml` checks all of it.

| files | part of the program |
|---|---|
| `HubProtocol`, `HubInvariant`, `HubTheorems`, `HubProgress`, `HubDelivery`, `HubObject`, `HubWitness` | the stream hub: every interleaving of `Subscribe`, `Close`, handlers and the `Run` goroutine, and the hub's methods on its fields |
| `MomentumStream`, `TxStream` | the two WebSocket handlers: replay, live loop, cursor, and the handover through the hub |
| `Watchdog`, `WatchdogRuns`, `WatchdogVerdicts` | the failover and failback state machine with its probe cache, and its runs |
| `Ledger`, `LedgerEffects`, `LedgerBlocks`, `LedgerRuns` | the tables, the statements a momentum queues, and their combined effect |
| `LedgerAccounts`, `LedgerDelegations`, `LedgerRewards`, `RewardSources` | cached counters, delegations and cumulative rewards against the aggregates they cache, and the reward backfill script |
| `Indexer`, `CatchUp` | `processMomentum`, `sync`, `Backfill`, and what they mean for the aggregates |
| `Bridge`, `BridgePasses`, `BridgeHoles`, `BridgeGrowth` | the early-stopping bridge request synchronisation |
| `Webhooks`, `WebhookRuns` | the webhook dispatcher: every interleaving of `Emit`, `Start`, `Stop` and the worker |
| `Retry` | retry with exponential backoff |

Concurrent code is a transition system over its atomic operations: a schedule is any sequence of step labels, a
label that is not enabled does nothing, and the theorems speak about every schedule.  Objects whose methods
update fields are classes, and their methods are proved equal to functions of the old state.  The environment
(RPC answers, SQL faults, the clock, context cancellation, which select case fires, which writes reach a client)
is a parameter that answers anything.  A Postgres transaction is atomic, and a notification is delivered after
its commit, in commit order, to a session that is listening.

## Findings

Where the code and its comments disagree, and where a natural claim needs a condition, the model follows the code.
Each point is a lemma.

- `failedOverAt` is documented as nil when on the primary (internal/indexer/watchdog.go:116), which holds.  It is not
  nil only then: it says whether the last swap was a failover, and with three nodes a failback to a fallback clears it
  (`RunIsSafe`, `FailbackToFallbackClearsStamp`).
- `tx_count` is documented as equal to `COUNT(*)` by construction (internal/repository/account_block.go:239-243).  It
  exceeds it by the number of reprocessed blocks touching the address (`TxCountExact`), which `Backfill` causes for
  every incomplete momentum with stored blocks (`ReprocessingOvercounts`).
- The default retry is documented as about 32 s over six waits (internal/indexer/retry.go:11-12).  It makes five
  waits, 15.5 s in all (`DefaultBudget`).
- A transactions connection whose `from_height` lies beyond the tip starts with a nil hash map; the handler panics
  exactly when the first live block at or above `from_height - 1` is at that height (`NilCursorPanics`).
- A momentum connection with `from_height` misses or repeats nothing exactly when the table was not empty at the tip
  read (or the client asked for height 1) and the replay stayed under the 10000-row cap (or the live events reach
  back to its end) (`HandoverExact`, `EmptyTableWitness`, `RowCapWitness`).
- A bridge pass leaves rows stale exactly at the stop height on pages after the first that meets it (`CleanPassExact`,
  `SharedHeightWitness`).  A request that is missing past that page is never stored by any later pass over that list,
  and every other one can be (`LostExact`).  Newer requests shift the pages: one growth can refill exactly what is less
  than 100 places behind the first request at the stop height, and what no growth ever brings back is stated exactly
  (`GrowthRefillsExact`, `LostForGoodExact`).  A pass causes this by failing after its first page, and also without
  returning an error, by one upsert that is only logged (`FaultyPassLoses`, `NilPassLosesOne`).
- `accounts.delegate` agrees with the delegation history exactly for delegators whose last Delegate found an
  accounts row, because the update does not insert one (`DelegateAgreesExact`, `UnknownDelegatorWitness`).
- The reward script adds to the totals in a second transaction: a fault between the two loses the amount, and no
  rerun or once-only live run brings it back (`FaultyScriptExact`, `FaultyScriptLosesForGood`).
- The reward script and the live path record the same reward of a stored block except a delegator's share, which the
  script puts under the pillar type, the liquidity contract's, and one whose send block is not stored, because the
  script joins with it and the live path reads it from the node's answer (`ScriptMatchesLive`, `MissingSourceWitness`).
  After a live run over one chain a script run changes nothing (`ScriptAddsNothing`).
- The lag counter rises after the failed send, so an event buffered before the lost one can still pass the check in
  between (`EarlierEventStillPasses`); the lost event and those after it never do (`LostIsFinal`).
- A transactions client whose `from_height` is 0 or stored receives every block exactly when those the replay caps
  cut off come live.  One beyond the tip, or over an empty table, does exactly when the first live block at or above
  `from_height - 1` is not at that height, or nothing it asked for comes (`TxHandoverExact`, `TxRowCapWitness`,
  `BeyondTipWitness`).

Every lemma switches Dafny's automatic induction off, also where no recursion is in sight: in Dafny 4.11 the
hypothesis it adds can contradict itself when a precondition quantifies over fields of sequence elements.

## Model

| member | source | states |
|---|---|---|
| HubInvariant.StepInv | internal/api/stream/hub.go:94-441 | every atomic step of every goroutine keeps the whole invariant: lock ownership, identities, flags, closers, counts, state, delivery history |
| HubInvariant.RunInv | internal/api/stream/hub.go:94-441 | the invariant holds after every schedule |
| HubInvariant.CloserStays | internal/api/stream/hub.go:94-100 | whoever won the close flag stays responsible for the channel until it has closed it |
| HubInvariant.PendingKept | internal/api/stream/hub.go:94-100 | a flagged, still open channel always has a goroutine that will close it |
| HubInvariant.CountKept | internal/api/stream/hub.go:231-262 | every step keeps, for every subject, count = registered subscribers, no zero entries, cap respected |
| HubInvariant.HistKept | internal/api/stream/hub.go:431-441 | every step keeps received + buffered equal to the offered slice of the dispatch log until the first loss, and the let-through events a prefix |
| HubInvariant.SeqKept | internal/api/stream/hub.go:375-441 | without malformed payloads every subscriber is offered consecutive notifications across all steps |
| HubTheorems.ChannelsSafe | internal/api/stream/hub.go:94-100 | over all interleavings no channel is closed twice or sent to after closing; registered channels are open whenever closeAllSubs does not hold the lock |
| HubTheorems.ClosedExactlyOnce | internal/api/stream/hub.go:252-262 | when no close is in progress, a subscriber's channel is open iff registered, else closed exactly once |
| HubTheorems.CapHolds | internal/api/stream/hub.go:190-262 | the per-subject count equals the registered subscribers with that subject, has no zero entries, and respects a positive cap |
| HubTheorems.NoneStrandedBetweenSessions | internal/api/stream/hub.go:323-351 | while Run is between two sessions, or drains after a failed one, the set is and stays empty until the next Running store, even for a Subscribe past its first check |
| HubTheorems.NoneStrandedAfterFlip | internal/api/stream/hub.go:323-351 | so from the end of the closeAllSubs that follows a Running to Degraded flip, whether the context was cancelled or Run reconnects |
| HubTheorems.NoneStrandedAfterRun | internal/api/stream/hub.go:268-271 | after Run returned no schedule registers a subscriber; all that ever existed are flagged closed |
| HubTheorems.PassedIsPrefix | internal/api/handlers/momentums_stream.go:247-262 | events that passed the lag check are a prefix of those dispatched since Subscribe, for any buffer size |
| HubTheorems.LostIsFinal | internal/api/stream/hub.go:431-441 | from a send that fell through on, counted or not yet, what passes the check stays within the events dispatched before the lost one |
| HubTheorems.LaggedIsFinal | internal/api/handlers/momentums_stream.go:247-262 | once the lag counter has risen nothing passes the check again |
| HubWitness.EarlierEventStillPasses | internal/api/stream/hub.go:435-439 | between the failed send and the counter an event buffered earlier can still pass |
| HubTheorems.PassedIsConsecutive | internal/api/stream/hub.go:375-441 | passed events are consecutive notifications, starting no later than right after the tip the handler read |
| HubProgress.LockIsFreed | internal/api/stream/hub.go:252-262 | from any state of the invariant the lock owner's own steps, as many as Held counts, give the lock back |
| HubProgress.HubCanSettle | internal/api/stream/hub.go:94-271 | no deadlock: from every reachable state some schedule frees the lock and ends every Close and closeAllSubs, and each flagged channel is then closed exactly once |
| HubProgress.SubscribeGoesThrough | internal/api/stream/hub.go:190-212 | with a free lock, a running hub and a subject under its cap a Subscribe completes and changes nothing else |
| HubDelivery.OfferWithRoom | internal/api/stream/hub.go:431-441 | in every reachable state an offer to a subscriber with fewer than bufSize buffered events appends the event and loses nothing |
| HubDelivery.LostOnlyWhenFull | internal/api/stream/hub.go:435-439 | a step makes a subscriber lose its first event iff it offers one to a channel that holds exactly bufSize events |
| HubDelivery.LossExact | internal/api/stream/hub.go:431-441 | over any schedule a subscriber loses something iff its channel is full at one of its offers: one that keeps up never does |
| HubDelivery.NotificationReachesAll | internal/api/stream/hub.go:375-441 | Run's steps for a committed notification put it at the end of every registered channel with room and count a lag for every full one, in any order of the subscribers |
| HubDelivery.HandlerTakes | internal/api/handlers/momentums_stream.go:247-262 | a handler takes the oldest buffered event and lets it through unless the subscriber lags |
| HubObject.Hub.constructor | internal/api/stream/hub.go:153-174 | a new hub is pending and empty, with defaults 32 for a non-positive buffer and 8 for a zero cap |
| HubObject.Hub.Subscribe | internal/api/stream/hub.go:190-212 | rejects unless running, rejects at the cap, else inserts one fresh subscriber and counts it |
| HubObject.Hub.Unsubscribe | internal/api/stream/hub.go:231-244 | removes a registered subscriber once and deletes an emptied count |
| HubObject.Hub.Close | internal/api/stream/hub.go:94-100 | the first Close deregisters and closes the channel once; a second changes nothing |
| HubObject.Hub.CloseAllSubs | internal/api/stream/hub.go:252-262 | closes every registered, unflagged channel once and empties both maps |
| HubObject.Hub.DrainAll | internal/api/stream/hub.go:268-271 | stopped, and all subscribers closed |
| HubObject.Hub.Dispatch | internal/api/stream/hub.go:431-441 | each registered subscriber with fewer than bufSize buffered events gets the event, each other one loses it and counts one lag more; nobody else changes |
| HubObject.DispatchUninterrupted | internal/api/stream/hub.go:431-441 | the protocol's interleaved dispatch steps, uninterrupted and in any order, add up to Dispatch |
| HubObject.CloseAllUninterrupted | internal/api/stream/hub.go:252-262 | the protocol's closeAllSubs steps, in any order, add up to CloseAllSubs |
| MomentumStream.ReplayMomentums | internal/api/handlers/momentums_stream.go:204-232 | asks for the range up to the tip or the cap, writes all rows it is answered and continues after the last; or nothing to replay; or an error after the frames written |
| MomentumStream.ReplaySucceeds | internal/api/handlers/momentums_stream.go:204-232 | replay succeeds iff its queries do and every row it is answered can be written |
| MomentumStream.RunLive | internal/api/handlers/momentums_stream.go:237-273 | the frames written are the live frames of the events let through before the first lag, close or failed write |
| MomentumStream.Serve | internal/api/handlers/momentums_stream.go:77-174 | the whole connection under any query errors, lag, closes and failed writes: a failed replay ends it, else the live frames of the events let through follow |
| MomentumStream.FramesOfServe | internal/api/handlers/momentums_stream.go:114-172 | when replay succeeds the frames are those the tip read, the rows and the live events determine |
| MomentumStream.LiveFramesIncrease | internal/api/handlers/momentums_stream.go:247-262 | live frames are strictly increasing and above the last sent height, whatever arrives |
| MomentumStream.LiveFramesComplete | internal/api/handlers/momentums_stream.go:247-262 | every event above all earlier ones and above the last sent height is written |
| MomentumStream.LetThroughExact | internal/api/handlers/momentums_stream.go:237-262 | the events let through are those before the first lag, close, end of the context or failed ping |
| MomentumStream.HeightsIncrease | internal/api/handlers/momentums_stream.go:204-273 | written heights strictly increase on every run |
| MomentumStream.LiveRange | internal/api/handlers/momentums_stream.go:237-273 | over consecutive events the live loop writes exactly those above the last sent height |
| MomentumStream.ScanOfRange | internal/repository/momentum.go:184-213 | a range scan of a gap-free table is the whole range |
| MomentumStream.HandoverExact | internal/api/handlers/momentums_stream.go:114-172 | the connection writes from, from+1, ... without gap or repeat iff the table was not empty (or from is 1) and the cap was not exceeded (or live reaches back) |
| MomentumStream.HandoverThroughHub | internal/api/handlers/momentums_stream.go:114-172 | in every reachable hub state without malformed payloads, subscribing before reading the tip makes the client's heights contiguous |
| MomentumStream.EmptyTableWitness | internal/api/handlers/momentums_stream.go:204-212 | a reachable hub state: over an empty table a client that asked for height 5 is sent height 1 |
| MomentumStream.RowCapWitness | internal/api/handlers/momentums_stream.go:217-219 | a reachable hub state: over the cap the client is sent 1, ..., 10000 and then 10002 |
| TxStream.TxStreamCursor.See | internal/api/handlers/transactions_stream.go:149-158 | seen is the cursor's Seen |
| TxStream.TxStreamCursor.MarkSent | internal/api/handlers/transactions_stream.go:160-166 | marking moves the cursor as Mark says and panics exactly on the nil map |
| TxStream.ReplayTransactions | internal/api/handlers/transactions_stream.go:174-210 | asks for the capped range with the row limit, writes the rows it is answered in order and leaves their cursor; or a cursor before from_height; or an error or panic after the frames written |
| TxStream.ReplaySucceeds | internal/api/handlers/transactions_stream.go:174-210 | replay succeeds iff its queries do, no row stands at height 0, and every row can be written; it panics iff the first row it writes stands at height 0; else it fails after the rows it could write |
| TxStream.RunTxLive | internal/api/handlers/transactions_stream.go:216-261 | under lag, closes and failed writes the frames are those the cursor lets through of the filtered blocks that passed the check, and a panic is exactly the cursor's |
| TxStream.SeenExact | internal/api/handlers/transactions_stream.go:144-166 | a tracked cursor suppresses a block iff the full history has it, or has moved past its momentum |
| TxStream.SendRefines | internal/api/handlers/transactions_stream.go:216-261 | from any tracked position the cursor's frames equal those of the full-history reference, without panic |
| TxStream.StreamRefines | internal/api/handlers/transactions_stream.go:174-261 | replay then live equals the reference, for every replay and every live sequence |
| TxStream.ReferenceOrdered | internal/api/handlers/transactions_stream.go:144-166 | heights never decrease and no block is written twice |
| TxStream.ReferenceComplete | internal/api/handlers/transactions_stream.go:144-166 | every block not behind the written ones is written: blocks of one momentum are never collapsed |
| TxStream.Serve | internal/api/handlers/transactions_stream.go:75-140 | the whole connection under any query errors, lag, closes, failed writes and panics: a failed replay ends it, else the filtered live frames its cursor lets through follow |
| TxStream.FramesOfServe | internal/api/handlers/transactions_stream.go:127-138 | when replay succeeds the frames are those from_height, the tip read, the rows and the live blocks determine |
| TxStream.ReplayPanics | internal/api/handlers/transactions_stream.go:160-210 | replay panics iff its first row stands at height 0, right after writing it |
| TxStream.LetThroughExact | internal/api/handlers/transactions_stream.go:216-236 | the blocks let through are those before the first lag, close, end of the context or failed ping |
| TxStream.FilteredIn | internal/api/handlers/transactions_stream.go:216-261 | live blocks pass the filter iff it is empty or names their address or their recipient |
| TxStream.TxHandoverExact | internal/api/handlers/transactions_stream.go:174-261 | for every from_height, tip, cap and live sequence: every stored block from from_height to the tip and every live block from there on is written iff each row the caps cut off comes live, or, beyond the tip and over an empty table, the first live block at or above from_height - 1 is not at it, or none is at from_height or above |
| TxStream.NothingIsCut | internal/api/handlers/transactions_stream.go:186-204 | the caps cut nothing off iff the table has at most 10000 rows, none 10000 heights or more above from_height; then the client misses nothing |
| TxStream.NilCursorFrames | internal/api/handlers/transactions_stream.go:185-191 | what a client beyond the tip receives: all above its cursor iff its first block does not meet the nil map, or nothing is above |
| TxStream.BeyondTipWitness | internal/api/handlers/transactions_stream.go:185-191 | from_height = tip + 2: the block at from_height is not written |
| TxStream.TxHandoverThroughHub | internal/api/handlers/transactions_stream.go:95-138 | in every reachable hub state without malformed payloads, subscribing before the tip read leaves no block missing between stored rows and live ones: completeness is exactly the condition of TxHandoverExact |
| TxStream.TxRowCapWitness | internal/api/handlers/transactions_stream.go:194-198 | one momentum with one block more than the row limit: that block is not written |
| TxStream.NilCursorPanics | internal/api/handlers/transactions_stream.go:185-191 | the cursor of an empty replay panics iff the first live block at or above its height is at its height |
| TxStream.NilCursorWitness | internal/api/handlers/transactions_stream.go:185-191 | from_height = tip + 2 panics on the next block |
| Watchdog.SyncWatchdog.StartupSwap | internal/indexer/indexer.go:191-202 | a failed client swap changes nothing; a successful one to a fallback keeps the watchdog one that has not ticked, which the run theorems start from |
| Watchdog.SyncWatchdog.ProbeOnce | internal/indexer/nodepool.go:89-163 | a probe result, with a write-once genesis cache |
| Watchdog.SyncWatchdog.React | internal/indexer/watchdog.go:154-192 | the active node's streaks after a classification, and when it asks for a restart or failover |
| WatchdogVerdicts.VerdictExact | internal/indexer/watchdog.go:62-101 | exactly when a tick gives each of the five verdicts, in the heights answered, the idle time and the thresholds, with int64 differences as they wrap |
| WatchdogVerdicts.ExceedsPlain | internal/indexer/watchdog.go:75-76 | for heights below 2^63 the wrapped difference is the plain one |
| WatchdogVerdicts.FailoverExact | internal/indexer/watchdog.go:295-340 | on every run a tick fails over to node j iff it is bad, enough bad ticks precede it, the swap works, and j is the first later node that answers at head on the chain |
| WatchdogVerdicts.SustainedFailureFailsOver | internal/indexer/watchdog.go:154-222 | UnhealthyStreak bad ticks in a row: none but the last swaps, and the last fails over to the first such node if the swap works |
| WatchdogVerdicts.FailbackExact | internal/indexer/watchdog.go:351-393 | a tick fails back to node c iff the active node is fine, the swap works, and c is the first earlier node at head on the chain whose healthy ticks in a row suffice |
| WatchdogVerdicts.RecoveredPrimaryTakesBack | internal/indexer/watchdog.go:238-258 | a primary recovered in FailbackStreak fine ticks in a row takes over on the last |
| Watchdog.SyncWatchdog.SelectFailoverTarget | internal/indexer/watchdog.go:201-222 | the first later node that answers, is at head and is on the recorded chain |
| WatchdogRuns.SwapTakesTicks | internal/indexer/watchdog.go:229-237 | a tick that fails back, or over, has at least its threshold of ticks behind it since the last swap |
| Watchdog.SyncWatchdog.TryFailback | internal/indexer/watchdog.go:351-393 | the candidates are credited in order and the first that earned it takes over if the swap works |
| Watchdog.SyncWatchdog.RunWatchdogTick | internal/indexer/watchdog.go:295-400 | one tick on the fields is the tick function of the old state and the answers |
| WatchdogRuns.ScanFacts | internal/indexer/watchdog.go:351-393 | a failback scan raises a healthy streak by at most one and picks only a node on the chain that earned it |
| WatchdogRuns.TickMatches | internal/indexer/watchdog.go:295-400 | every tick keeps streaks equal to their history |
| WatchdogRuns.StreakIsHistory | internal/indexer/watchdog.go:154-192 | on every run the active streak counts bad ticks since the later of the last synced tick and swap; all others are 0 |
| WatchdogRuns.IndexerLagNeverFailsOver | internal/indexer/watchdog.go:62-101 | ticks on which only the indexer is behind never raise a streak and never fail over, however many or long stalled |
| WatchdogRuns.SwapRate | internal/indexer/watchdog.go:314-393 | over any n ticks swaps times the smaller threshold is at most n |
| WatchdogRuns.SwapSpacing | internal/indexer/watchdog.go:229-258 | a failover comes at least UnhealthyStreak, a failback at least FailbackStreak ticks after the previous swap |
| WatchdogRuns.TickIsSafe | internal/indexer/watchdog.go:295-393 | a tick keeps chain and cached genesis, failovers only raise and failbacks only lower the active index |
| WatchdogRuns.RunIsSafe | internal/indexer/watchdog.go:295-393 | on every run the active node is on the chain and in range, failedOverAt is set iff the last swap was a failover; index 0 implies nil, and with two nodes exactly then |
| WatchdogRuns.ChainIsWriteOnce | internal/indexer/nodepool.go:146-163 | once set the chain identifier never changes |
| WatchdogRuns.FailbackToFallbackClearsStamp | internal/indexer/watchdog.go:382 | a three-node run that ends on a fallback with a nil stamp |
| Ledger.CommitIsBlocks | internal/indexer/processor.go:46-164 | a committed momentum is its blocks one by one, then its row and notification |
| LedgerEffects.BlockEffect | internal/indexer/processor.go:312-501 | the combined effect of all statements of one block on every table and on one account |
| LedgerEffects.CounterColumns | internal/repository/account.go:46-109 | what one block does to an account's counters and to account_blocks, for each role the address plays |
| LedgerEffects.DelegationColumns | internal/indexer/embedded.go:105-129 | what one block does to an account's delegate and to the history |
| LedgerEffects.RewardColumns | internal/indexer/rewards.go:14-79 | what one block does to reward_transactions and cumulative_rewards |
| LedgerEffects.PairedColumn | internal/repository/account_block.go:63-117 | what one block's inserts and updates leave in the paired_account_block column of every row |
| LedgerBlocks.AccountCounters | internal/repository/account.go:46-109 | every counter and time column of one account after one block, in the block's own fields |
| LedgerBlocks.AccountsCreated | internal/repository/account.go:19-109 | the accounts after a block are those before, its own and its recipient's |
| LedgerBlocks.BlockRows | internal/repository/account_block.go:63-91 | a block whose hash is not stored appends one row with its columns, any other none; of the older rows only the links can change |
| LedgerBlocks.PairedRows | internal/repository/account_block.go:63-106 | which block each row is paired with afterwards |
| LedgerBlocks.DescendantRows | internal/repository/account_block.go:108-122 | a row descends from the block that lists it, and nothing else rewrites that column |
| LedgerBlocks.RewardRecordedExact | internal/indexer/rewards.go:14-110 | exactly which reward a block records, of which kind, once per hash, and what it adds to which total |
| LedgerBlocks.DelegationStarts | internal/repository/account.go:141-147 | the start column after a Delegate, an Undelegate and any other block |
| LedgerRuns.RunIsBlockRun | internal/indexer/processor.go:103-136 | a run of committed and rolled back momentums leaves what its committed blocks in order leave |
| LedgerAccounts.CountersExact | internal/repository/account.go:46-109 | on every run the cached totals are the aggregate plus what reprocessed blocks count |
| LedgerAccounts.CountersAreAggregates | internal/repository/account.go:46-109 | on runs that commit each block once tx_count and the flow totals equal the aggregates, self-sends once |
| LedgerAccounts.TxCountExact | internal/repository/account_block.go:239-247 | tx_count equals COUNT(*) iff no block touching the address was reprocessed, and by how much it exceeds it otherwise |
| LedgerAccounts.SeenIsMinMax | internal/repository/account.go:100-109 | first_seen and last_seen are the extreme timestamps, reprocessing included |
| LedgerDelegations.OneOpenInterval | internal/repository/delegation.go:43-57 | at most one open interval per delegator on every run |
| LedgerDelegations.UndelegateEnds | internal/indexer/embedded.go:122-129 | an Undelegate the pillar contract receives ends the sender's open interval, clears its column and changes nobody else's |
| LedgerDelegations.DelegateMoves | internal/indexer/embedded.go:105-120 | a Delegate to a named pillar with a known owner ends the sender's interval and opens one to the owner |
| LedgerDelegations.NothingElseDelegates | internal/indexer/embedded.go:105-129 | every other block leaves the history and every delegate column as they were |
| LedgerDelegations.DelegateAgreesExact | internal/repository/account.go:141-147 | the delegate column names the open interval's pillar iff the last Delegate found an accounts row |
| LedgerDelegations.UnknownDelegatorWitness | internal/indexer/embedded.go:105-120 | a Delegate whose send block the node did not return leaves the column and the history apart |
| LedgerDelegations.CountsAgree | internal/repository/pillar.go:275-313 | the accounts ListDelegators counts are as many as CountActiveByPillar counts |
| LedgerDelegations.RunCountsAgreeExact | internal/repository/delegation.go:61-68 | after every run from empty tables the two counts of a pillar are equal iff each open interval naming it comes from a Delegate that found its accounts row |
| LedgerDelegations.IntervalsOrdered | internal/repository/delegation.go:43-57 | with non-decreasing timestamps each delegator's intervals are disjoint and ordered |
| LedgerRewards.RewardedSum | internal/repository/reward.go:33-40 | adding a reward moves the cached amount by it and the sum by it unless its row was there |
| LedgerRewards.LiveDrift | internal/indexer/rewards.go:14-79 | from any tables a live run moves cached amount minus sum by exactly what was counted twice |
| LedgerRewards.RewardsExact | internal/repository/reward.go:33-63 | on every run cumulative rewards are the sum of the rows plus what was counted twice |
| LedgerRewards.RewardsConserved | internal/indexer/rewards.go:34-73 | on runs that commit each block once cumulative rewards equal the sum per address, type and token |
| LedgerRewards.RewardTables.InsertRow | scripts/backfill-rewards/main.go:140-151 | inserts unless the hash is there and reports how many rows it inserted |
| LedgerRewards.RewardTables.Record | scripts/backfill-rewards/main.go:140-166 | both statements of one candidate, and what each fault leaves |
| LedgerRewards.RewardTables.Backfill | scripts/backfill-rewards/main.go:109-171 | a run without faults is the fold over the candidates; a fault ends it with the earlier candidates done; the counters are right |
| LedgerRewards.ScriptConserves | scripts/backfill-rewards/main.go:109-171 | an error-free script run preserves conservation from any state in which it holds |
| LedgerRewards.FaultyScriptExact | scripts/backfill-rewards/main.go:109-171 | a run that a fault ends at any candidate keeps conservation iff it did not die between the two statements of a new row of that key with a nonzero amount |
| LedgerRewards.DriftStays | scripts/backfill-rewards/main.go:109-171 | no script run and no live run over unrecorded blocks changes how far the totals are off |
| LedgerRewards.FaultyScriptLosesForGood | scripts/backfill-rewards/main.go:140-165 | the lost amount stays lost through any such later runs |
| RewardSources.TypesAgreeExact | scripts/backfill-rewards/main.go:176-189 | apart from the treasury the script's type and the live one agree iff the reward is not a delegator's share |
| RewardSources.ScriptMatchesLive | scripts/backfill-rewards/main.go:60-174 | script and live path record the same reward of a stored block except a delegator's share, recorded under the pillar type, the liquidity contract's, and one whose send block is not stored |
| RewardSources.RunDescribes | internal/repository/account_block.go:63-117 | after every run over one chain, reprocessing included, the rows the script's query reads describe the processed blocks |
| RewardSources.ScriptAddsNothing | scripts/backfill-rewards/main.go:60-174 | on the tables a live run over one chain filled, whatever the query answers, a script run changes nothing |
| RewardSources.MissingSourceWitness | scripts/backfill-rewards/main.go:75-77 | a stored reward whose send block the node did not return: the live path records it, the script's join does not find it |
| LedgerRewards.RerunsAreOneRun | scripts/backfill-rewards/main.go:109-171 | any number of reruns equals one run |
| Indexer.Indexer.ProcessAccountBlocks | internal/indexer/processor.go:312-501 | the batch and the events are those of the returned blocks in order |
| Indexer.Indexer.ProcessMomentum | internal/indexer/processor.go:46-164 | all statements or none, and events only after a commit |
| Indexer.Indexer.GetLatestHeight | internal/repository/momentum.go:23-33 | the greatest stored height, 0 for an empty table |
| Indexer.Indexer.Sync | internal/indexer/indexer.go:333-429 | from 1..k it commits exactly what it is served up to the first thing that stops it, as heights k+1, k+2, ...; SyncEnds says, for each way to end, exactly when; events are exactly the committed ones' |
| Indexer.SyncDetermined | internal/indexer/indexer.go:333-429 | the answers determine the result and the momentums committed |
| Indexer.FaultlessSyncFinishes | internal/indexer/indexer.go:333-429 | without faults sync ends at the frontier with every momentum up to it committed |
| Indexer.Indexer.ListHeights | internal/indexer/indexer.go:1331-1353 | exactly the missing heights below the latest and the incomplete momentums, ascending |
| Indexer.Indexer.Backfill | internal/indexer/indexer.go:1327-1440 | under query failure and cancellation at any height: the block, account, delegation and reward tables are those of the committed answers' blocks in order, every momentum row is kept, and exactly the listed heights written by either path are added |
| Indexer.BackfillIsBlockRun | internal/indexer/indexer.go:1386-1422 | the tables after any answers are the block run of those that committed |
| CatchUp.BackfillStoresBlocks | internal/indexer/indexer.go:1412 | every returned block of a committed answer is stored |
| CatchUp.BackfillHeals | internal/indexer/indexer.go:1331-1353 | a height whose momentum committed with all its blocks returned is not listed again |
| Indexer.BackfillFillsExact | internal/indexer/indexer.go:1327-1440 | heights 1..MAX are all stored iff every missing one was reached and written |
| Indexer.CommitHeights | internal/repository/momentum.go:46-52 | a commit adds its own height if absent and leaves other momentum rows alone |
| CatchUp.SyncProcessesOnce | internal/indexer/indexer.go:333-429 | the momentums sync commits hold no block that is stored or repeated |
| CatchUp.SyncKeepsAggregates | internal/indexer/indexer.go:333-429 | wherever sync stops, counters and cumulative rewards are still the aggregates |
| CatchUp.ReprocessingOvercounts | internal/indexer/indexer.go:1412-1419 | reprocessing a momentum with a stored block puts tx_count above COUNT(*) for each address it touches |
| Bridge.StopHeight | internal/repository/bridge.go:288-350 | at or below every unfinalised height, the newest height when all are final, 0 when empty, always a stored height |
| Bridge.StopExact | internal/repository/bridge.go:288-350 | exactly the stop height: the least height of a wrap with confirmations left or an unwrap neither redeemed nor revoked, else the greatest, else 0 |
| BridgePasses.StoredAt | internal/repository/bridge.go:23-52 | after any sequence of upserts a request is there iff it was or one of them stored it, with the columns of the insert and the live columns of the upsert |
| Bridge.BridgeTable.Update | internal/indexer/indexer.go:1046-1193 | the page loop upserts exactly the scanned prefix of the list and returns nil exactly when no page failed |
| BridgePasses.ScanReaches | internal/indexer/indexer.go:1059-1115 | a pass gets to a request iff its page and all before are fetched and no page before it meets the stop height |
| BridgePasses.NilExact | internal/indexer/indexer.go:1059-1118 | a pass returns nil iff every page it asks for is fetched, the empty page after a full last one included |
| BridgePasses.AboveStopUpserted | internal/indexer/indexer.go:1046-1193 | when the loop ends without error every request above the stop height has been upserted |
| BridgePasses.CleanPassRestores | internal/indexer/indexer.go:1046-1193 | from any rows of earlier answers a clean pass stores, or equals, the whole list iff nothing is missing, or stale, past the stopping page |
| BridgePasses.CleanPassHoldsAll | internal/indexer/indexer.go:1046-1193 | a clean pass from a complete table stores every listed request |
| BridgePasses.CleanPassExact | internal/indexer/indexer.go:1046-1193 | from a complete table the pass leaves the remote list iff no stale row at exactly the stop height is on a page after the first that meets it |
| BridgePasses.DistinctHeightsExact | internal/indexer/indexer.go:1122-1193 | with distinct heights the early-stopping pass equals the full one |
| BridgePasses.SharedHeightWitness | internal/indexer/indexer.go:1168-1178 | 101 requests of one momentum: the pass leaves the table different from the list |
| BridgePasses.CleanRunHoldsAll | internal/indexer/indexer.go:1046-1193 | over any run of clean passes on a growing list no request is ever missed |
| BridgeHoles.StopOnlyNears | internal/indexer/indexer.go:1046-1193 | no pass, whatever fails, brings a request past the stopping page back within reach |
| BridgeHoles.LostExact | internal/indexer/indexer.go:1046-1193 | from any rows of earlier answers, a request is stored by none of the later passes iff it is missing past the stopping page |
| BridgeHoles.RecoveryExact | internal/indexer/indexer.go:1046-1193 | some later passes store every request iff none is missing past the stopping page |
| BridgeHoles.FaultyPassLoses | internal/indexer/indexer.go:1059-1118 | one pass from a complete table under arbitrary fetch and upsert faults loses a request for good iff it missed it, stored something on an earlier page, and left no unfinalised row below that page |
| BridgeHoles.FaultLeavesHole | internal/indexer/indexer.go:1059-1062 | a first pass that fails on a later page loses every request from there on |
| BridgeHoles.NilPassLosesOne | internal/indexer/indexer.go:1093-1095 | a pass that returns nil but failed one upsert loses that request for good |
| BridgeGrowth.GrownPassExact | internal/indexer/indexer.go:1046-1193 | after the list grew by d requests a clean pass stores a missing request iff its shifted page is at most that of the shifted first request at the stop height |
| BridgeGrowth.GrowthRefillsExact | internal/indexer/indexer.go:1046-1193 | some growth lets the next clean pass store a missing request iff it is less than a page behind that first request |
| BridgeGrowth.LostForGoodExact | internal/indexer/indexer.go:1046-1193 | over every growth, every fault and any number of passes a missing request is never stored iff it is a page or more behind a request at or below the stop height such that all missing requests below it within a page are finalised |
| Webhooks.Wants | internal/webhooks/dispatcher.go:132-142 | an endpoint wants an event iff its list is empty or names the type |
| Webhooks.Deliver | internal/webhooks/dispatcher.go:144-172 | at most maxRetries + 1 requests, stopping at the first accepted one or at a build error, with the backoff slept |
| Webhooks.StepInv | internal/webhooks/dispatcher.go:69-172 | every step of Emit, Start, Stop and the worker keeps FIFO, close-once, shutdown and delivery order |
| WebhookRuns.ClosedAtMostOnce | internal/webhooks/dispatcher.go:84-116 | quit and done are closed at most once |
| WebhookRuns.TakenIsPrefix | internal/webhooks/dispatcher.go:95-116 | dispatched events are a FIFO prefix of the accepted ones, at most 1024 behind |
| WebhookRuns.WorkIsDeliver | internal/webhooks/dispatcher.go:144-172 | the worker's steps at an endpoint are the rounds of the delivery loop |
| WebhookRuns.EndpointIsLeft | internal/webhooks/dispatcher.go:144-172 | the worker leaves an endpoint iff the delivery loop returns there |
| WebhookRuns.EmitExact | internal/webhooks/dispatcher.go:95-104 | an Emit is accepted iff the closed flag is not set and fewer than 1024 events are queued |
| WebhookRuns.SendExact | internal/webhooks/dispatcher.go:99-103 | an Emit past its check is queued iff there is room when it sends |
| WebhookRuns.UnmarshalledIsDropped | internal/webhooks/dispatcher.go:118-123 | an event that cannot be marshalled is dropped and the worker goes on |
| WebhookRuns.EventIsSent | internal/webhooks/dispatcher.go:118-172 | while the endpoints accept, a taken event goes out exactly once to each endpoint that wants its type, in order |
| WebhookRuns.AttemptsBounded | internal/webhooks/dispatcher.go:118-172 | per dispatched event and wanting endpoint at most maxRetries + 1 requests, none for others |
| WebhookRuns.AcceptedIsLast | internal/webhooks/dispatcher.go:118-172 | requests follow event order, and nothing is sent again after an accepted request |
| WebhookRuns.NothingAfterStop | internal/webhooks/dispatcher.go:84-90 | once a Stop returned nothing is dispatched or sent on any continuation |
| WebhookRuns.LateEmits | internal/webhooks/dispatcher.go:95-104 | after the closed flag only Emit calls already past the check can still be accepted |
| WebhookRuns.StopNeedsStart | internal/webhooks/dispatcher.go:69-90 | without Start no Stop ever returns |
| WebhookRuns.WorkEnds | internal/webhooks/dispatcher.go:118-172 | from anywhere in a delivery, whatever the endpoints answer, the worker is back at its select within the steps its position leaves |
| WebhookRuns.StopCanReturn | internal/webhooks/dispatcher.go:84-116 | once quit is closed a started worker is gone after at most endpoints times (attempts + 1) + 1 steps of its delivery, for every sequence of replies: Stop does not deadlock |
| WebhookRuns.StopReturns | internal/webhooks/dispatcher.go:84-116 | on a started dispatcher with the once not held, a Stop call returns within a bounded number of steps for every sequence of replies, with the flag set and the worker gone |
| WebhookRuns.OnceCanFinish | internal/webhooks/dispatcher.go:84-89 | while a call holds the once, its remaining steps end it |
| WebhookRuns.StopCallExact | internal/webhooks/dispatcher.go:84-90 | a first Stop enters the once, one after it waits for the worker, one during it cannot pass |
| WebhookRuns.StartLaunches | internal/webhooks/dispatcher.go:69-73 | Start launches the worker once and does nothing else |
| Retry.WithRetryConfig | internal/indexer/retry.go:37-80 | fn runs at most max(1, MaxAttempts) times, stops at the first success, and the waits are the closed form |
| Retry.NextWait | internal/indexer/retry.go:71-76 | the loop's doubling and capping take the i-th closed-form wait to the next |
| Retry.TotalClosedForm | internal/indexer/retry.go:37-80 | for every base up to the cap and every n the n waits total base*(2^j - 1) plus the cap for each of the other n - j, j being how many stay below the cap |
| Retry.DefaultBudget | internal/indexer/retry.go:19-25 | the default waits total at most 15.5 s, below the 60 s grace of swapActiveClient |

## Left out

- Postgres, pgx, migrations and LISTEN/NOTIFY internals: transactions are atomic and notifications arrive as described above.
- HTTP routing, authentication, rate limiting, metrics, health endpoints and generated API code: thin wrappers.
- ABI decoding: the decoded call is an input of the model.
- Balances, tokens, stakes, fusions, sentinels, accelerator, swap and HTLC tables: unconditional overwrites that no modelled property reads.
- Genesis balances, block_count, public keys and token transaction counts: plain columns written beside the modelled ones.
- `updateCachedData`, `runSubscriptionSession`, the subscription loop and the cron loops: a subscription session may skip a failed momentum, so gap-freeness is a property of `sync` that `Backfill` restores.
- BIGINT overflow of a counter: it aborts the batch, which is the rolled back outcome.
- 64-bit wrap-around of a doubled retry delay: it needs a cap above 2^62 ns.
- The time between reconnects of the hub (`nextBackoff`) and all wall-clock time: only the order of steps is modelled; pings, timeouts and failed writes end a connection at any point.
- MomentumStream.HandoverThroughHub: requires that no payload was malformed, because a payload that does not decode is skipped and leaves a gap.
- BridgeHoles.LostExact: speaks about a fixed list; BridgeGrowth.LostForGoodExact is the same for a list that grows between passes.
- BridgePasses.CleanPassExact: assumes that a finalised request no longer changes on the node, and that the list does not change during a pass.
- The order of events offered by concurrent Emit calls: only the order in which the queue accepted them is modelled.
- The byte form of webhook bodies and their HMAC signature.
- The reader methods `SubscriberCount`, `SubjectCount`, `Recv` and `Running` of the hub.
