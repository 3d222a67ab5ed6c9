# Verified model of the stablecoin backend and SDK cores

A Dafny model of those parts of the Solana Stablecoin Standard repository whose behaviour is decided by its own
off-chain code, with proofs of what they guarantee over all inputs, runs and interleavings.

| modules | what they model |
|---|---|
| `DeliveryLog`, `WebhookProtocol`, `WebhookSafety` | the delivery rows, and the webhook protocol as a state machine: one spawned task per delivery, one retry worker with a possibly stale snapshot, registration, deletion and restarts, interleaved in any order, with any POST and any database call failing |
| `RetryWorker`, `RetryDrain`, `Dispatcher` | the delivery tables as an object, the worker's pass and the dispatch loop as imperative code refining that state machine, the termination of retries, and the text a delivery signs |
| `TokenAccount`, `CreditClock`, `RateLimiter` | the token-bucket limiter: the theory of token accounts, lazily refilled buckets with time measured in tokens, and the limiter itself with its rate in seconds |
| `Indexer`, `IndexerRuns` | polling a program's history with a persisted cursor and a batch limit; whole runs with growth, RPC failures and interruptions |
| `LiquidationSync` | the liquidation history derived from the event log |
| `StressTest` | the liquidity stress simulation |
| `ByteLayout`, `MerkleProofs`, `ChannelCodec`, `ChannelInstructions`, `Blacklist` | little-endian and hexadecimal encodings, Merkle inclusion proofs, the channel account, instruction data, and the raw blacklist scan |
| `Backstop` | the draw calculator of the bad-debt backstop |
| `Wrappers`, `Sequences`, `Reals` | options and results, reversal, minimum and maximum |

What the source changes in place is a class or an array with methods here; each method is proved against a function
of its inputs or of the old state, and the theorems are about that function or about runs of it. Every lemma switches
automatic induction off, so the proof on the page is the whole proof. `dafny verify dfyconfig.toml` checks the project.

Amounts of the limiter and the simulation are real numbers; the backstop uses integers, the layouts bytes. SHA-256 is
a function parameter. Clocks, fresh ids, POST answers, RPC answers and database failures are parameters or
nondeterministic events. Each call under the database mutex is one atomic step.

## What the proofs show about the code

- `MAX_ATTEMPTS` (3) does not bound the POSTs of a delivery. A spawned task that runs late resets the attempt count,
  so five POSTs are possible (`BoundIsReached`), and five is the most (`PostsAreBounded`). The retry table of
  docs/INDEXER-GUIDE.md:157-161 holds for a delivery whose task claims its row before the worker reads it.
- `post_json` returns Ok for any HTTP response, whatever its status (backend/src/webhook_dispatch.rs:212-215). A
  success in the model is such an Ok, not a 2xx status.
- A restart strands every in-progress row for good: no query selects it and no step changes it (`RestartStrands`).
- The marks do not look at the current status. A worker that has read a row before it was delivered, and then finds
  the webhook deleted or the payload unreadable, overwrites `delivered` by `permanently_failed`. A run from the start
  does so (`DeliveredCanBeLost`), and such a stale read is the only way (`DeliveredIsFinal`). In the same way a row
  can be condemned while the POST of its task is in flight, and the task's mark then revives it
  (`FailedCanBeRevived`); without an attempt holding the row, permanently failed is final (`PermanentlyFailedIsFinal`).
- docs/EVENT-SCHEMA.md:130-137 verifies a signature over the raw body. The code signs id, timestamp and body joined by
  dots, as the header comment of webhook_dispatch.rs says; the model follows the code.
- The limiter reads the clock before it takes the lock (backend/src/rate_limit.rs:71-72). Requests that overtake each
  other refill the same time twice, so the window bound gains a term for such slips (`WindowBound`), which is needed
  (`OutOfOrderExceedsWindow`). With nothing admitted in between, waiting for Retry-After seconds always
  helps, unless the wait does not fit in a u64, where the cast saturates; that a check a second earlier is refused
  holds if the key's own requests are in order (`RetryAfterIsExact`), and can fail otherwise (`RetryAfterNeedsOrder`).
- A refused check leaves no trace in later decisions as long as the key's clock does not go back at it or at the next
  one (`ErasureKeepsDecisions`); otherwise it can (`ErasureNeedsOrder`). Other keys never matter (`KeysAreIndependent`).
- A poll that finds more than 50 signatures loses the older ones for good (`BurstsAreLost`), and so it does a
  transaction whose fetch or insert fails: the error is logged and the cursor moves on. A poll that is cut off does not
  move the cursor, and what it had indexed is indexed again (`PollStep`, `AtLeastOnce`).
- The liquidation sync runs on every request (backend/src/routes/liquidations.rs:60) and inserts an event without a
  signature, or with another `cdp_address` than its log address, again each time (`HistoryGrowsLinearly`).
- The sync is not a transaction. If it is cut short between two liquidations of one address in one transaction, the
  second is never inserted (`TwinIsLost`); `CutSyncsResume` says exactly when nothing is lost or repeated.
- A daily refill as large as the demand does not keep the simulated pool up when the demand exceeds the initial pool:
  what would take the pool above twice its initial size is not credited (`PoolCanFall`, `RefillsKeepThePool`).
- The comment on `verifyMerkleProof` speaks of little-endian byte order; the code concatenates the bytes as they are.
- The comment on `decodeChannel` counts four u64 fields (sdk/src/AgentPaymentChannelModule.ts:802); there are five, and
  with five the layout has the 214 bytes it is said to have.
- A negative `maxBackstopBps` is treated as no cap, which the formula in the comment does not say.

## Model

| member | source | states |
|---|---|---|
| DeliveryLog.BackoffSchedule | backend/src/webhook_dispatch.rs:38-51 | a failed attempt makes the row due again after 1 s or 5 s, and never after the third, when it is permanently failed |
| DeliveryLog.BatchReadsWhatIsDue | backend/src/db.rs:622-632 | a batch of fewer than 100 has exactly the pending rows and the failed ones whose retry time has come; a full one leaves out only rows at least as new as all it has |
| WebhookProtocol.StepMoves | backend/src/webhook_retry_worker.rs:27-81 | every step of tasks, worker, deletion or restart is, for each delivery, one of the eight moves of its view; so steps about other deliveries leave it alone |
| WebhookProtocol.MoveKeepsExclusive | backend/src/db.rs:573-618 | every move keeps mutual exclusion and finality although the two marks have no status guard |
| WebhookProtocol.MoveKeepsBounded | backend/src/webhook_dispatch.rs:56-115 | every move keeps the accounting between POSTs, `attempt_count`, stale reads and holders |
| WebhookProtocol.RunKeeps | backend/src/webhook_retry_worker.rs:27-81 | the inductive invariant holds after every run, in any interleaving |
| WebhookProtocol.LastingHolds | backend/src/webhook_retry_worker.rs:43-80 | what no move of a delivery can end lasts through every continuation, with the permanent-fail moves excluded in runs without deletions and unreadable payloads |
| WebhookSafety.NoTwoPostsInFlight | backend/src/webhook_dispatch.rs:64-80 | the claim is race-free: no delivery ever has two POSTs in flight, a held row is in progress or permanently failed, and a claimable row has no holder |
| WebhookSafety.PostsAreBounded | backend/src/webhook_dispatch.rs:40-51 | at most 2 * MAX_ATTEMPTS - 1 POSTs per delivery in any run; at most MAX_ATTEMPTS if its task tried its claim before the worker first read the row |
| WebhookSafety.BoundIsReached | backend/src/webhook_dispatch.rs:170-175 | a run with five POSTs of one delivery exists, so the documented three attempts are not a bound |
| WebhookSafety.HistoryIsHonest | backend/src/webhook_dispatch.rs:56-115 | what the bounds count is what happens: a POST exactly when one more is in flight, a success when an attempt hears Ok, an alert when one is written, early when the worker reads a row whose task has not tried its claim |
| WebhookSafety.AtMostOneAlert | backend/src/webhook_dispatch.rs:88-103 | no delivery gets two max-retries alerts |
| WebhookSafety.NoPostAfterSuccess | backend/src/db.rs:573-618 | once a POST has returned Ok, the delivery is never POSTed again in any continuation, whatever is deleted, fails or restarts |
| WebhookSafety.NoPostAfterAlert | backend/src/webhook_dispatch.rs:86-103 | once the max-retries alert is written, the delivery is never POSTed again |
| WebhookSafety.RestartStrands | backend/src/db.rs:620-632 | after a restart an in-progress row and its POST count never change again |
| WebhookSafety.TerminalRowsLast | backend/src/webhook_retry_worker.rs:46-68 | in runs without webhook deletions and with payloads that parse, delivered and permanently failed rows are absorbing |
| WebhookSafety.DeliveredIsFinal | backend/src/webhook_retry_worker.rs:46-56 | a delivered row stays as it is in every continuation if and only if the worker holds no stale read of it |
| WebhookSafety.LosingRun | backend/src/db.rs:587-605 | with such a stale read pending, steps exist that turn the delivered row into a permanently failed one |
| WebhookSafety.DeliveredCanBeLost | backend/src/db.rs:573-605 | a run from the start delivers a row with a stale read pending, and its continuation marks it permanently failed |
| WebhookSafety.PermanentlyFailedIsFinal | backend/src/db.rs:573-605 | a permanently failed row stays so in every continuation if and only if no attempt holds it |
| WebhookSafety.FailedCanBeRevived | backend/src/webhook_retry_worker.rs:46-68 | a run from the start condemns a row while a POST of it is in flight, and its continuation takes it out of permanently failed |
| WebhookSafety.EarlierIsReadFirst | backend/src/db.rs:561-632 | of two deliveries the one dispatched at an earlier time is read first, whatever happened to both since, if it is pending or its retry is due |
| RetryWorker.Database.InsertDelivery | backend/src/db.rs:554-570 | a pending row with no attempts is added, or an error and no change |
| RetryWorker.Database.ClaimDelivery | backend/src/db.rs:609-618 | true exactly for a pending or failed row, which becomes in-progress; otherwise, and on an error, nothing changes |
| RetryWorker.Database.MarkDelivered | backend/src/db.rs:573-584 | sets delivered whatever the status was; an error for an unknown id or a failing call |
| RetryWorker.Database.MarkFailed | backend/src/db.rs:587-605 | sets the count and failed, or permanently failed without a retry time, whatever the status was; an error for an unknown id or a failing call |
| RetryWorker.Database.GetPending | backend/src/db.rs:622-648 | the oldest due rows in order, at most 100, none left out otherwise |
| RetryWorker.ExecuteAttempt | backend/src/webhook_dispatch.rs:56-115 | the row and the alerts after one attempt, with claim, mark or alert failing or not; nothing happens when the claim is lost or fails |
| RetryWorker.PassOutcome | backend/src/webhook_retry_worker.rs:27-81 | column by column, what a pass makes of a row it has read and whether it writes an alert, for every outcome of its calls |
| RetryWorker.RunOnce | backend/src/webhook_retry_worker.rs:27-81 | the rows and the alerts after a pass over the batch that was read, with the fetch and, for each row, look-up, claim, mark and alert failing or not |
| RetryWorker.PassIsRun | backend/src/webhook_retry_worker.rs:27-81 | what RunOnce does to rows and alerts the protocol does with worker steps alone, so the safety results apply to it |
| Dispatcher.Dispatch | backend/src/webhook_dispatch.rs:128-177 | each webhook that listens to the event, or to all, gets one new pending row and one task for attempt 1 unless its insert fails; other rows are untouched |
| Dispatcher.HookIsServed | backend/src/webhook_dispatch.rs:138-174 | a hook gets a row and a task exactly if the insert works and it is registered for this event type or for "*"; the row is pending, untried and dated by its insertion |
| Dispatcher.DispatchIsRun | backend/src/webhook_dispatch.rs:128-177 | a dispatch is a run of the protocol |
| Dispatcher.SignedStringIsUnique | backend/src/webhook_dispatch.rs:203-208 | two deliveries sign the same text only if id, timestamp and body agree, ids and timestamps having no dot |
| Dispatcher.DotsConfuse | backend/src/webhook_dispatch.rs:203-208 | with dots allowed in them, different parts give one text |
| RetryDrain.ReachableLogsAreCounted | backend/src/webhook_dispatch.rs:40-51 | in every reachable state a claimable row has between 0 and 2 counted attempts |
| RetryDrain.BatchSize | backend/src/db.rs:628-632 | a batch has all due rows or 100 of them |
| RetryDrain.PassLowersLeft | backend/src/webhook_retry_worker.rs:27-81 | each pass lowers the attempts left over all rows by at least the number of rows it changes, which is the smaller of 100 and the number of due rows if no call fails |
| RetryDrain.ReadsAreBounded | backend/src/webhook_retry_worker.rs:27-81 | over any passes at any times, with any calls failing, the worker changes rows at most three times per delivery; if no call fails, these are all the rows it reads |
| RetryDrain.DrainCompletes | backend/src/webhook_retry_worker.rs:27-81 | after as many fault-free passes as there are attempts left, each at or after the retry times of the failed rows, every row is delivered or permanently failed |
| TokenAccount.ClosedForm | backend/src/rate_limit.rs:79-86 | what a capped account offers is the least of the capacity and of capacity plus credit minus admissions since each earlier admission |
| TokenAccount.GreedyIsOptimal | backend/src/rate_limit.rs:88-90 | no feasible policy has admitted more than the greedy one after any prefix |
| TokenAccount.WindowCredit | backend/src/rate_limit.rs:79-90 | a feasible policy admits at most the capacity and the credit between two requests |
| CreditClock.CreditIsTime | backend/src/rate_limit.rs:79-82 | the credit between two requests of a key is the time between them plus every step back of the key's clock |
| CreditClock.SlipsAreDisorder | backend/src/rate_limit.rs:71-82 | between two requests, a key's clock slips exactly if its own readings are not in order |
| RateLimiter.RateLimiter.Check | backend/src/rate_limit.rs:70-98 | the answer and the buckets after a check: refill, cap, and one token taken exactly when there is one |
| RateLimiter.ClockAgrees | backend/src/rate_limit.rs:79-82 | the limiter finds the tokens, and takes the decisions, of a bucket whose clock is scaled by the rate |
| RateLimiter.RefillIsRated | backend/src/rate_limit.rs:79-81 | each request refills its key's bucket by the rate times the seconds since the key's last request |
| RateLimiter.LazyRefillClosedForm | backend/src/rate_limit.rs:79-86 | the tokens at any request of any history are the least of the capacity and, over the earlier admissions of the key, capacity + rps * the seconds since + the slips since - the admissions since |
| RateLimiter.LimiterIsOptimal | backend/src/rate_limit.rs:70-98 | after every prefix of any history the limiter has admitted at least as many requests of a key as any other policy with the same bucket |
| RateLimiter.WindowBound | backend/src/rate_limit.rs:70-90 | a window admits at most capacity + rps * T and the tokens refilled again by clock readings out of order |
| RateLimiter.WindowInOrder | backend/src/rate_limit.rs:70-90 | with the key's own readings in order, at most capacity + rps * T |
| RateLimiter.OutOfOrderExceedsWindow | backend/src/rate_limit.rs:71-82 | three requests, one of them overtaken, that exceed capacity + rps * T |
| RateLimiter.SlipIsRated | backend/src/rate_limit.rs:79-82 | a reading d seconds before the key's last one adds d times the rate to the slips |
| RateLimiter.IdleDecision | backend/src/rate_limit.rs:79-90 | in any history, with nothing admitted on the key since request i, a later check is admitted if and only if the tokens found by i, the refill since and the slips since make a whole token |
| RateLimiter.RetryAfterIsExact | backend/src/rate_limit.rs:88-97 | with nothing admitted in between, a check at least w seconds after a refusal with w succeeds in any history, if the wait fits in a u64; if the key's own readings since are in order, one at most w - 1 seconds after it is refused, and so is one after a saturated w |
| RateLimiter.RetryAfterNeedsOrder | backend/src/rate_limit.rs:71-97 | with an overtaken reading in between, a check no time at all after a refusal is admitted, for every rate and a step back worth a token |
| RateLimiter.NeverAgainWithoutRefill | backend/src/rate_limit.rs:88-97 | with a rate of 0, after one refusal of a key every later check of it is refused with 2^64 - 1 seconds |
| RateLimiter.ErasureKeepsDecisions | backend/src/rate_limit.rs:74-90 | erasing other keys and any refused checks changes no remaining decision, if the key's clock goes back neither at an erased check nor at the next one of the key |
| RateLimiter.KeysAreIndependent | backend/src/rate_limit.rs:74-90 | in any history, the decisions on a key are those of its own requests alone |
| RateLimiter.RefusedChecksCanBeErased | backend/src/rate_limit.rs:74-90 | if the key's own requests are in order, any refused checks can be erased, whatever the order of the other keys |
| RateLimiter.ErasureNeedsOrder | backend/src/rate_limit.rs:71-90 | with an overtaken refused check worth a token, erasing it turns the next decision from admitted to refused |
| Indexer.FetchSignatures | backend/src/indexer.rs:188-239 | an error if the call fails; otherwise the signatures of the answer in its order, without failed items and items that have none |
| Indexer.TruthIsReadable | backend/src/indexer.rs:188-239 | from what a node with this history answers, the signatures read are those of the successes among the newest 50 after the cursor, newest first |
| Indexer.FetchAndIndexTx | backend/src/indexer.rs:243-314 | as many rows as the transaction has events, up to a failing insert, row i carrying event i and the signature; the result counts them or is the error |
| Indexer.IndexOldestFirst | backend/src/indexer.rs:159-174 | the rows of a newest-first list are written oldest first, errors of single transactions notwithstanding, until the process dies |
| Indexer.PollProgram | backend/src/indexer.rs:130-185 | with any call failing or the process dying anywhere: the rows written by a poll, the cursor at the newest success of its batch exactly if the poll completes, and its result |
| IndexerRuns.PollStep | backend/src/indexer.rs:130-185 | whatever happens, PollProgram takes the step Poll of the run model, the step CutOff, or none, for a cursor that stands for the count of the model; other cursors stay |
| IndexerRuns.AttemptsAreWritten | backend/src/indexer.rs:158-182 | the attempts a poll adds are those whose rows it writes, and they are replays exactly if the cursor does not get past them |
| IndexerRuns.PollCatchesUp | backend/src/indexer.rs:144-182 | after a completed poll, every transaction newer than the cursor among the newest 50 has failed |
| IndexerRuns.RunBalances | backend/src/indexer.rs:138-182 | in every run the cursor never moves back and attempts plus skips are the successes passed plus replays |
| IndexerRuns.AttemptsOf | backend/src/indexer.rs:144-182 | how often each transaction has been attempted, in any run |
| IndexerRuns.OnlyBurstsAreSkipped | backend/src/indexer.rs:144-182 | a success the cursor has passed was left out only if it lay beyond the newest 50 at a poll |
| IndexerRuns.BurstsAreLost | backend/src/indexer.rs:144-182 | such a success is never attempted in any continuation |
| IndexerRuns.PassedIsNeverRevisited | backend/src/indexer.rs:176-182 | what the cursor has passed is never attempted again, failed or not |
| IndexerRuns.AttemptsAscend | backend/src/indexer.rs:158-174 | without interruptions attempts go strictly up the chain and stay below the cursor, bursts or not |
| IndexerRuns.ExactlyOnce | backend/src/indexer.rs:138-182 | with at most 50 new signatures a poll and no failing call, the attempts are the successes up to the cursor, once each, in chain order, and the log has event k of each of them at the place the events before it leave, and nothing else |
| IndexerRuns.AtLeastOnce | backend/src/indexer.rs:159-182 | with small polls, and interruptions allowed, each success passed is attempted once plus once per interrupted poll that had reached it, and nothing else but by such polls |
| LiquidationSync.Tables.Sync | backend/src/db.rs:1110-1185 | the rows appended by a sync and its result, with the query or any insert failing |
| LiquidationSync.AddedRows | backend/src/db.rs:1110-1180 | the rows added are those of the events taken up, one for one and in order; each has the mint, amounts, liquidator, slot and signature of its event, with the stated defaults |
| LiquidationSync.AmountsAreConserved | backend/src/db.rs:1151-1180 | what the rows added say was seized and repaid adds up to what the events taken up say |
| LiquidationSync.RecordedAfter | backend/src/db.rs:1114-1121 | an event has a matching row after a sync if and only if it had one or some unrecorded event of the log decodes to one |
| LiquidationSync.SecondSyncIsEmpty | backend/src/db.rs:1110-1185 | a second sync inserts nothing if and only if the first leaves every decodable liquidation event with a matching row |
| LiquidationSync.SyncIsCompleteAndIdempotent | backend/src/db.rs:1110-1185 | so it is when all of them have a signature and no other `cdp_address` than their log address |
| LiquidationSync.SingleEventNeedsBoth | backend/src/db.rs:1117-1150 | for a log with one such event the two conditions are necessary and sufficient |
| LiquidationSync.HistoryGrowsLinearly | backend/src/routes/liquidations.rs:59-60 | repeated syncs insert the same number of rows each time after the first |
| LiquidationSync.CutSyncsResume | backend/src/db.rs:1111-1182 | wherever a sync is cut short, it and the next full one insert together what one full sync inserts, if and only if each event taken up is matched by its own row and by none before it |
| LiquidationSync.FindableWithoutTwins | backend/src/db.rs:1117-1150 | so it is when all liquidation events are findable and no two share signature and address |
| LiquidationSync.TwinIsLost | backend/src/db.rs:1117-1180 | of two findable events with one signature and address a full sync inserts both rows; cut short between them, no number of later syncs inserts the second |
| StressTest.Redeem | scripts/liquidity-stress-test.ts:145-165 | redemptions are paid from the pool, then from the insurance fund; a breach exactly if both fall short |
| StressTest.EndOfDay | scripts/liquidity-stress-test.ts:144-188 | the variables and the recorded day after the refilled pool has met the demand |
| StressTest.Simulate | scripts/liquidity-stress-test.ts:113-191 | the simulation of any number of days and its verdict |
| StressTest.PanicWearsOff | scripts/liquidity-stress-test.ts:131-137 | for the same circulation a later day never sees more demand; the multiplier stays between 0.1 and 2 |
| StressTest.DemandSchedule | scripts/liquidity-stress-test.ts:131-137 | demand is the base rate times 2 on days 1 to 3, 1.5 to day 7, 1 on day 8 and the decaying multiplier after it, at most what is circulating |
| StressTest.MultiplierDecays | scripts/liquidity-stress-test.ts:135 | after day 8 the multiplier falls by 15% a day until it has reached a tenth |
| StressTest.RefillSchedule | scripts/liquidity-stress-test.ts:141 | a refill is its share of what is circulating, cut exactly where that exceeds 5% of the TVL; shares up to 5% are never cut |
| StressTest.ScriptIsSensible | scripts/liquidity-stress-test.ts:137-142 | for nonnegative parameters demand is between nothing and everything in circulation, and refills are not negative |
| StressTest.Ledger | scripts/liquidity-stress-test.ts:141-168 | every day circulating + redeemed = TVL, pool + insurance + redeemed = initial funds + the sum of min(refill, twice the initial pool - pool), 0 <= pool <= twice the initial pool, 0 <= insurance <= initial insurance |
| StressTest.ScriptLedger | scripts/liquidity-stress-test.ts:113-168 | the ledger in the parameters of the script: no tokens or money beyond its TVL, pool, insurance and the refills credited |
| StressTest.EntryOf | scripts/liquidity-stress-test.ts:176-186 | every recorded day: its number and demand, fulfilled is the lesser of demand and funds, the breach flag says it fell short, the insurance is touched only when the refilled pool is used up, and the balances add up |
| StressTest.DayKeepsPool | scripts/liquidity-stress-test.ts:141-165 | over a day a pool with money in it does not shrink if and only if demand is at most min(refill, twice the initial pool - pool) |
| StressTest.RefillsKeepThePool | scripts/liquidity-stress-test.ts:141-165 | if no day asks for more than its refill, nor for more than the initial pool, the pool never falls below its initial size, the insurance is untouched and no day breaches |
| StressTest.PoolCanFall | scripts/liquidity-stress-test.ts:141-149 | a refill that covers demand does not suffice: demand above the initial pool leaves it smaller on day 1 |
| StressTest.RecordedDays | scripts/liquidity-stress-test.ts:138-186 | drain days and breach day are the first recorded days with an empty pool, an empty insurance and unmet demand, or none; the greatest demand is the greatest recorded |
| StressTest.StopsWhenRedeemed | scripts/liquidity-stress-test.ts:130-188 | a run has fewer days than asked for exactly when its last recorded day, and no day before it, leaves nothing in circulation |
| StressTest.FullReserveNeverBreaches | scripts/liquidity-stress-test.ts:144-165 | funds that cover all tokens never breach |
| StressTest.SurvivalIsGoodDays | scripts/liquidity-stress-test.ts:191 | the verdict holds if and only if each recorded day ends with money in both funds and demand met |
| StressTest.MoreMoneyBreachesLater | scripts/liquidity-stress-test.ts:130-189 | for any demand and refill curves, more initial money breaches only where less did, and no earlier |
| StressTest.MoreMoneySurvives | scripts/liquidity-stress-test.ts:130-191 | for any demand and refill curves, if the run with less money survives, so does the one with more |
| StressTest.RaisingFundsIsMonotone | scripts/liquidity-stress-test.ts:113-191 | raising the script's initial pool or insurance never introduces a breach or an earlier first breach day |
| StressTest.RaisingFundsSurvives | scripts/liquidity-stress-test.ts:113-191 | raising the script's initial pool or insurance never turns its verdict from survived to failed |
| ByteLayout.ValueOfLe | sdk/src/AgentPaymentChannelModule.ts:420-423 | a little-endian integer that fits its width is read back |
| ByteLayout.LeOfValue | sdk/src/AgentPaymentChannelModule.ts:812-824 | the bytes of a little-endian field are determined by its value |
| ByteLayout.LittleEndian | sdk/src/AgentPaymentChannelModule.ts:420-423 | the bytes of an integer count from the least significant one |
| ByteLayout.HexText | sdk/src/ProofOfReserves.ts:160 | each byte is written as two digits of 0-9a-f, the high one first |
| ByteLayout.ToFromHex | sdk/src/ProofOfReserves.ts:145-148 | decoding hexadecimal text keeps it, up to case, exactly if it is pairs of digits; otherwise it is cut |
| ByteLayout.CutOfJoin | sdk/src/AgentPaymentChannelModule.ts:785-802 | consecutive fields are read back at their offsets, whatever follows the record |
| MerkleProofs.VerifyMerkleProof | sdk/src/ProofOfReserves.ts:141-164 | true exactly if there is a direction for each sibling and hashing up from the leaf gives the root, in any case |
| MerkleProofs.OneLevelIsDoubleHash | sdk/src/ProofOfReserves.ts:147-160 | without siblings the root is the leaf; with one it is the double digest of both, the left one first |
| MerkleProofs.CaseIsIgnored | sdk/src/ProofOfReserves.ts:141-160 | the case of the hexadecimal digits of leaf, siblings and root never changes the verdict |
| MerkleProofs.TwoLeavesNeedACollision | sdk/src/ProofOfReserves.ts:141-160 | two proofs with the same directions and different leaves of one length that both verify exhibit two distinct inputs with one digest among those hashed while checking them |
| MerkleProofs.LeafLengthsMatter | sdk/src/ProofOfReserves.ts:145-153 | for every hash, bytes moved from a leaf to its sibling keep the proof valid, so the equal length is needed |
| MerkleProofs.EveryLeafVerifies | sdk/src/ProofOfReserves.ts:144-160 | every leaf of every tree has a proof that verifies against the root, in either case, parents being sha(sha(left + right)) |
| MerkleProofs.OnlyTheLeafVerifies | sdk/src/ProofOfReserves.ts:141-160 | a proof along a path of a tree verifies only the leaf there, among leaves of its length, or exposes a collision |
| ChannelCodec.DecodeChannel | sdk/src/AgentPaymentChannelModule.ts:804-849 | an error exactly below 214 bytes; otherwise the fields of the documented layout |
| ChannelCodec.FieldOffsets | sdk/src/AgentPaymentChannelModule.ts:785-824 | each field of the decoded account, at its literal offset |
| ChannelCodec.DecodeOfEncode | sdk/src/AgentPaymentChannelModule.ts:785-824 | decoding the documented layout returns every field, for all field values and whatever follows |
| ChannelCodec.EncodeOfDecode | sdk/src/AgentPaymentChannelModule.ts:821-824 | encoding what was decoded restores the account if and only if both flag bytes are 0 or 1 |
| ChannelInstructions.OpenChannelData | sdk/src/AgentPaymentChannelModule.ts:400-423 | fails exactly for the zero counterparty or a value out of its range; otherwise the fields one after the other in 65 bytes |
| ChannelInstructions.OpenChannelParses | sdk/src/AgentPaymentChannelModule.ts:409-423 | every parameter is read back from the 65 bytes, so each byte belongs to exactly one field |
| ChannelInstructions.OpenChannelLayout | sdk/src/AgentPaymentChannelModule.ts:409-423 | discriminator and each parameter at its literal offset in 65 bytes |
| ChannelInstructions.SubmitWorkProofData | sdk/src/AgentPaymentChannelModule.ts:468-482 | the two length errors in order, range errors, or the 81 bytes |
| ChannelInstructions.WorkProofParses | sdk/src/AgentPaymentChannelModule.ts:475-482 | every field of the 81 bytes is read back |
| ChannelInstructions.WorkProofLayout | sdk/src/AgentPaymentChannelModule.ts:475-482 | discriminator and each parameter at its literal offset in 81 bytes |
| ChannelInstructions.ProposeSettleData | sdk/src/AgentPaymentChannelModule.ts:527-532 | a range error or the 24 bytes |
| ChannelInstructions.SettlementParses | sdk/src/AgentPaymentChannelModule.ts:527-532 | every field of the 24 bytes is read back |
| ChannelInstructions.SettlementLayout | sdk/src/AgentPaymentChannelModule.ts:527-532 | discriminator and both values at their literal offsets in 24 bytes |
| ChannelInstructions.InstructionsDiffer | sdk/src/AgentPaymentChannelModule.ts:98-100 | data of one of the three instructions never begins like that of another |
| Blacklist.IsBlacklisted | sdk/src/ComplianceModule.ts:141-168 | true exactly if the address is among the whole entries present, up to the number claimed |
| Blacklist.TruncatedList | sdk/src/ComplianceModule.ts:154-165 | any cut of an encoded list lists the keys that are there in full |
| Blacklist.EncodedListIsListed | sdk/src/ComplianceModule.ts:146-165 | on an encoded list of any length, padded or not, the scan is exactly membership |
| Backstop.DrawIsConserved | sdk/src/BadDebtBackstopModule.ts:410-444 | for any numbers the draw is the capped shortfall or the fund, whichever is less, and draw + remainder = shortfall |
| Backstop.DrawIsLargest | sdk/src/BadDebtBackstopModule.ts:410-435 | for a supply that is not negative, the draw is the greatest amount within the shortfall, the fund and maxBackstopBps ten-thousandths of the supply |
| Backstop.CapIsRounded | sdk/src/BadDebtBackstopModule.ts:421-423 | the cap is that share rounded toward zero, for either sign |
| Backstop.DrawsAreConserved | sdk/src/BadDebtBackstopModule.ts:410-444 | over any sequence draws and remainders add up to the shortfalls |
| Backstop.TotalDrawn | sdk/src/BadDebtBackstopModule.ts:410-435 | a fund reduced by each draw pays, in all, the lesser of its balance and the capped shortfalls |
| Backstop.OneByOneDrawsMore | sdk/src/BadDebtBackstopModule.ts:410-435 | covering one by one draws at least as much as covering the sum at once and at most the fund, and as much exactly under the stated conditions, always without a cap |
| Backstop.OrderDoesNotMatter | sdk/src/BadDebtBackstopModule.ts:410-435 | the order of the shortfalls does not change the total drawn |

## Left out

- HTTP, JSON-RPC, tokio, axum, WebSocket broadcasts, tracing and HTTP response codes: a POST or RPC call is a nondeterministic result, a spawned task a source of interleaved steps.
- SQLite: tables are maps and sequences, each call under the mutex one atomic step. Ids are numbers instead of UUIDs and times whole seconds instead of RFC 3339 text, so the text comparison of times is not modelled.
- Payload texts of deliveries: only whether a payload parses is kept. The bodies of first attempts and retries differ in the source and are not compared.
- RetryDrain.DrainCompletes: fault-free passes with the spawned tasks finished, as in-progress rows of a lost process never end.
- Floating-point rounding: the limiter and the simulation are over real numbers.
- RateLimiter.RetryAfterIsExact: over real seconds; the resolution of the clock is not modelled.
- Negative refill rates of the limiter, which its callers never configure.
- Indexer.FetchAndIndexTx: the upsert of the collateral-config table and the WebSocket broadcast beside each event row are not stated; the upsert only copies fields of the event and its errors are swallowed, the broadcast's are ignored.
- The parsing of log lines into events; a response carries the events it parses to. Signatures, programs and events are numbers.
- Chain reorganisations: the history is append-only, and a node answers from all of it or not at all.
- `cdp_health_distribution` and the other analytics queries, feature flags, API keys, supply sums and DAO actions: they would only add easy members.
- SHA-256, HMAC, base58 and PDA derivation: SHA-256 is any function with 32-byte digests, the HMAC is not applied, keys are their 32 bytes.
- The feature-flag check, accounts and sending of the channel instructions; the handlers of the on-chain programs are not part of this model.
- A `maxBackstopBps` that is not an integer, where the source throws.
- The summary text of the simulation.
