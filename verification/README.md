# StrikeEdge execution core, in Dafny

StrikeEdge enters and leaves four-leg option boxes through a live broker. Its risk sits in small in-memory
protocols that must hold over every run: retried commands, reordered broker events, restarts, and async
code that interleaves at each `await`. This project models those protocols and proves what they promise.

| module | what it models |
|---|---|
| `ResidualProjection` | the versioned residual row of an execution attempt and its compare-and-set commands |
| `ChargeWatermarks` | one process's watermark maps, which debit each paisa of flatten charges once |
| `RateBudget` | the sliding-window order budget with recovery reserve and cooldown |
| `TransportPacing` | the first-in-first-out transport pacer with three watermarks |
| `OrderEvidence` | what a broker snapshot proves, and the merge of REST reads and stream updates |
| `OrderSubmission`, `OrderSignals`, `OrderWaiting` | single submission, wake-ups and bounded waiting of the Dhan adapter |
| `BoundedQueue`, `StagePipeline` | the coalescing / never-drop queue and independently draining stages |
| `ReadinessOrdering` | boot ordinals, generations and client convergence across restarts |
| `EntryOrder`, `EvidenceTiming`, `BoxFunding`, `EconomicAdmission` | hedge-first order, freshness, stage funding and the admission gate |
| `CalibrationBuffer`, `HistoricalGate`, `PaperPositions` | the smaller stateful cores |

`dafny verify dfyconfig.toml` checks the whole project.

## How the code is represented

* Async code becomes atomic steps between awaits. A run is an arbitrary sequence of events; an event that
  cannot happen in the current state is skipped, so every law quantifies over every interleaving.
* Objects the source mutates are classes. Each method's postcondition equates the new state with a function
  of the old one, and the laws are proved about runs of those functions. Ghost fields (`full`, `wire`,
  `starts`, `log`, ...) record history and never influence behaviour.
* The wait loops take the merges of stream updates and reads as a parameter and rely on three laws of them;
  `ADAPTER` is the adapter's own pair, proved to have these laws.
* The broker, the database, the sink, the HTTP layer and the clock are arguments, chosen adversarially.
* Money is integer paise and time integer milliseconds; absent, null and non-finite values are `None`.
* A sha256 digest is the value that is hashed (an injective hash). Text fields of a leg are interned as
  numbers, and the locale order of their renderings is one fixed total order.

## Where the code does less than it says

Each of these is kept as the code has it, with a witness and a law that says exactly when the promise holds.

* The comment at `src/box/brokerPacing.ts:577-580` promises room for a full four-leg unwind. With ten requests a
  second a full burst leaves room for two cancels (`RateBudget.DefaultReserveStopsThirdCancel`). After a burst an
  unwind fits exactly under `UnwindFitsBurstIff`, and after any run when every window reserves enough (`UnwindFits`).
* A charge acknowledged without a day is debited from today's risk whatever day it belongs to
  (`src/box/executionAttemptProjection.ts:406-408`). A legacy row without a day does that
  (`UndatedRowOverdebits`); the debit law holds exactly when no undated rise is shown (`DebitedOncePerPaisaIff`),
  and for every process exactly when the row starts dated (`RowDebitsOnceIff`).
* A re-read snapshots an order before its awaits and stores after them, so a stream update in between can be
  overwritten by an older figure. `OrderEvidence.OverlappingReadKeepsFillIff` says exactly when not. The guard at
  `src/box/dhanBrokerAdapter.ts:1033-1042` never fires, because the projection already carries the snapshot's fill
  (`RefreshGuardIsRedundant`).
* A submission stores the order it created, or one projected from its request alone, over anything a stream update
  recorded meanwhile (`AnswerCanRewind`). The fill survives exactly when the answer states as much
  (`AnswerKeepsFillIff`); a later read restores it.
* A REST read takes an order out of a terminal state unless it proves an end itself (`RestCanReopen`,
  `ReadKeepsTerminalityIff`). `TerminalIff` says for every mixed run when the order ends terminal.
* The projection version falls back to zero after 2^53 - 1 (`VersionCountsWinnersIff`, `VersionWrapExample`).
* The row's one day bucket holds all of a day's charges only until another day is charged (`BucketIsDaySpendIff`).
* A paper position opened from flat by an unpriced fill counts that fill as free once a priced one follows, against
  the comment in `src/box/brokerAdapter.ts` above the fold (`UnpricedOpeningUnderstates`). An unpriced fill that
  crosses through flat leaves the new direction at the old one's cost (`UnpricedFlipKeepsOldCost`).
  `AverageWithinRange` bounds the average for every sequence of fills, these included.
* A calibration sink that throws before returning a promise leaves the in-flight marker set for ever
  (`SynchronousThrowWedges`, `WedgesIff`). Shutdown strands samples that arrive while it awaits
  (`IdleShutDownStrandsArrival`); `ShutDownStrandsNothingIff` is the exact condition over every such run.
* An `undefined` value ends a stage's drain loop with work still queued (`UndefinedStopsDrain`); handled followed by
  queued is everything put in exactly when none was taken (`NeverDropStageHandlesAll`).
* Overlapping boot-ordinal resolutions can publish one process under two ordinals (`OverlapGivesTwoOrdinals`).
  Exactly the return of a second positive row to a process that has published does it (`PublishedStableIff`,
  `RebindThenPublishBreaks`); every other overlapping run converges (`OverlappingDecisionsConverge`).
* The observation latch serves one waiter, and `cancelOrder` can wait beside a poll loop. For any number of waiters
  `WaitReturnsAtOnceIff` says exactly when a wait returns at once; `SecondWaiterMissesLatch` is the loss.
* The hedge premium counts requests rather than roles, so a repeated role can hide a missing hedge
  (`RepeatedRoleHidesMissingHedge`); with distinct roles it is exact (`HedgePremiumPresentIff`).

## Model

| member | source | states |
|---|---|---|
| `ResidualProjection.KeyTellsLeg` | src/box/executionAttemptProjection.ts:62-77 | equal renderings mean equal legs, field by field, up to the two legacy defaults |
| `ResidualProjection.IdentityIffSameLegs` | src/box/executionAttemptProjection.ts:62-87 | two residuals have equal identities if and only if they hold the same legs, in any order and with multiplicity, up to the two defaults |
| `ResidualProjection.CreateCommand` | src/box/executionAttemptProjection.ts:99-136 | the command carries the legs, the attempt and every id field it was given; an unsafe version becomes zero, a positive charge its nearest paise, any other charge zero, and a day that is not ISO "unattributed" |
| `ResidualProjection.CreatedCommandLands` | src/box/executionAttemptProjection.ts:99-221 | at any point of any run a command created for the current version and legs lands, leaves exactly the next legs, and charges the nearest paise |
| `ResidualProjection.ReportShowsRow` | src/box/executionAttemptProjection.ts:146-176 | every answer shows the row's version, identity, legs, day and charges, a missing or negative figure as zero |
| `ResidualProjection.AppliesIffExpectationHolds` | src/box/executionAttemptProjection.ts:182-199 | a command not in the ring lands exactly when its version is current and it names the stored legs in some order |
| `ResidualProjection.WinnerVersions` | src/box/executionAttemptProjection.ts:182-221 | over any commands, order and repeats, the k-th applied command carried version start + k, and the version grew by the number applied |
| `ResidualProjection.WinnerCharges` | src/box/executionAttemptProjection.ts:200-217 | lifetime charges equal the start plus the deltas of the applied commands |
| `ResidualProjection.RunLaw` | src/box/executionAttemptProjection.ts:182-221 | the whole-run law: consecutive versions, hence one winner per version, with version and charges accounted for |
| `ResidualProjection.LastWinnerStands` | src/box/executionAttemptProjection.ts:200-221 | the row shows the legs and identity of the last winner and is resolved exactly when those legs are none |
| `ResidualProjection.AppliedAtMostOnce` | src/box/executionAttemptProjection.ts:182-221 | two applied positions never hold the same command or application id, even after the id left the ring |
| `ResidualProjection.RingLaw` | src/box/executionAttemptProjection.ts:9-9 | the ring is the last 32 ids of the starting ring followed by the winners' ids |
| `ResidualProjection.RetryAnswer` | src/box/executionAttemptProjection.ts:182-199 | a retry is "already applied" while fewer than 32 later commands landed, "stale" ever after, and never changes the row |
| `ResidualProjection.IdentityAlwaysMatches` | src/box/executionAttemptProjection.ts:84-87 | the stored identity stays the identity of the stored legs through every run |
| `ResidualProjection.DayTotalWithinLifetime` | src/box/executionAttemptProjection.ts:200-217 | the day bucket never exceeds the lifetime total, through every run |
| `ResidualProjection.BucketIsDaySpendIff` | src/box/executionAttemptProjection.ts:200-217 | the bucket holds all of a day's charges if and only if no other day was charged after that day's first charge |
| `ResidualProjection.VersionAdvancesIff` | src/box/executionAttemptProjection.ts:182-221 | one applied command advances the version by one if and only if it was below the last safe integer; there it becomes zero |
| `ResidualProjection.VersionCountsWinnersIff` | src/box/executionAttemptProjection.ts:182-221 | over a run the version counts the winners if and only if they fit below the last safe integer |
| `ResidualProjection.VersionWrapExample` | src/box/executionAttemptProjection.ts:182-221 | a run at the last safe integer in which a later winner carries a smaller version |
| `ChargeWatermarks.SplitDayKey` | src/box/executionAttemptProjection.ts:240-269 | a bucket key reads back as the attempt and day it was made from, so buckets never collide |
| `ChargeWatermarks.ChargeObserver.Seed` | src/box/executionAttemptProjection.ts:228-237 | seeding raises only that attempt's lifetime watermark, to the maximum |
| `ChargeWatermarks.ChargeObserver.SeedForDay` | src/box/executionAttemptProjection.ts:303-315 | seeding a day raises only that bucket, and nothing without a day or a figure |
| `ChargeWatermarks.ChargeObserver.Reconcile` | src/box/executionAttemptProjection.ts:372-456 | the in-place update and its emission are those of the acknowledgement function the debit law is about |
| `ChargeWatermarks.ChargeObserver.Adopt` | src/box/executionAttemptProjection.ts:320-370 | first sight debits the current day's bucket once and records it; later sights reconcile |
| `ChargeWatermarks.ChargeObserver.Compact` | src/box/executionAttemptProjection.ts:248-269 | the two deletion loops keep exactly the retained attempts and their current-day buckets, with values unchanged |
| `ChargeWatermarks.CompactionKeepsExactly` | src/box/executionAttemptProjection.ts:248-269 | an attempt or a bucket survives compaction if and only if it is retained and, for a bucket, of the current day |
| `ChargeWatermarks.MarksAre` | src/box/executionAttemptProjection.ts:228-409 | after any operations both watermarks of a retained attempt are the highest totals shown |
| `ChargeWatermarks.DebitsAccounted` | src/box/executionAttemptProjection.ts:228-456 | for a retained attempt and the current day, everything debited plus everything seeded is the highest bucket total seen plus the undated rises, for every mix of seeds, adoptions, acknowledgements and compactions |
| `ChargeWatermarks.DebitedOncePerPaisaIff` | src/box/executionAttemptProjection.ts:372-409 | each paisa of the day is debited once if and only if no operation showed a lifetime rise without a day on a debiting path |
| `ChargeWatermarks.AnswerShowsRow` | src/box/executionAttemptProjection.ts:146-221 | the figures the compare-and-set answers with are those of the row after the command; a missing row answers with none |
| `ChargeWatermarks.RowsStayDated` | src/box/executionAttemptProjection.ts:200-217 | a row that names the day of its charges keeps doing so through every run |
| `ChargeWatermarks.RowAcksDebitOnce` | src/box/executionAttemptProjection.ts:182-456 | end to end: a process shown arbitrary past states of a dated row in arbitrary order debits each paisa once |
| `ChargeWatermarks.UndatedRowOverdebits` | src/box/executionAttemptProjection.ts:406-408 | every row with charges and no day has its whole lifetime total debited by one acknowledgement |
| `ChargeWatermarks.RowDebitsOnceIff` | src/box/executionAttemptProjection.ts:372-456 | the law holds for every process if and only if the row starts dated |
| `ChargeWatermarks.BucketAboveLifetimeDebitsTwice` | src/box/executionAttemptProjection.ts:320-456 | without "day total within lifetime" the same paise are debited twice |
| `RateBudget.ResolvePolicy` | src/box/brokerPacing.ts:584-597 | an override in range is used, workers rounded down; anything else falls back to one worker and a fifth |
| `RateBudget.ReserveSplitsShare` | src/box/brokerPacing.ts:619-651 | placement share plus reserve is the worker's share, which is the greatest that all workers can have at once |
| `RateBudget.RulesOf` | src/box/brokerPacing.ts:619-705 | no finite window looks further back than the pruning horizon |
| `RateBudget.WithoutExpired` | src/box/brokerPacing.ts:707-712 | shifting keeps a suffix of the history, drops only expired entries and stops at the first live one |
| `RateBudget.RateBudgetLedger.Prune` | src/box/brokerPacing.ts:707-712 | pruning keeps the ledger in agreement with the full history over the horizon |
| `RateBudget.RateBudgetLedger.CountWithin` | src/box/brokerPacing.ts:715-721 | counts both classes inside the window |
| `RateBudget.RateBudgetLedger.Oldest` | src/box/brokerPacing.ts:765-772 | finds the oldest request inside the window |
| `RateBudget.RateBudgetLedger.Check` | src/box/brokerPacing.ts:730-763 | the pruned ledger answers exactly as the complete history would |
| `RateBudget.RateBudgetLedger.Record` | src/box/brokerPacing.ts:781-786 | the complete history gains exactly this request, in its class |
| `RateBudget.RateBudgetLedger.Penalize` | src/box/brokerPacing.ts:793-802 | a throttle answer extends the cooldown and never shortens it |
| `RateBudget.ThrottleIsObeyed` | src/box/brokerPacing.ts:730-802 | after a throttle answer, over every later run and until its time has passed, every order class is refused with a retry time no earlier, and data reads stay allowed |
| `RateBudget.ThrottleForbidsExactly` | src/box/brokerPacing.ts:793-802 | it adds exactly its own time to what was forbidden, one per-second window when it names none |
| `RateBudget.RateBudgetLedger.Admit` | src/box/dhanBrokerAdapter.ts:545-580 | check and record at one instant is one guarded request of a run; refusals are counted by class |
| `RateBudget.WindowsNeverExceeded` | src/box/brokerPacing.ts:619-786 | over every run and every interval of every finite window, requests stay within the worker's share and placements within theirs |
| `RateBudget.RecoveryRefusedOnlyByRecovery` | src/box/brokerPacing.ts:730-763 | outside a cooldown a cancel or modify is refused only when recovery itself has used the binding window's reserve |
| `RateBudget.RunsExtend` | src/box/brokerPacing.ts:781-802 | over every run the history only grows and a cooldown never moves earlier |
| `RateBudget.RefusedUntilRetryTime` | src/box/brokerPacing.ts:730-772 | a refused class stays refused, whatever happens meanwhile, until its reported retry time |
| `RateBudget.RetryTimeIsFirstRelief` | src/box/brokerPacing.ts:730-772 | the retry time lies ahead within the window's span, and is the first instant at which the window has lost its oldest request |
| `RateBudget.DhanDefaultBudgets` | src/box/brokerPacing.ts:487-522 | the four default budgets of Dhan in figures |
| `RateBudget.ZerodhaDefaultBudgets` | src/box/brokerPacing.ts:487-522 | the four default budgets of Zerodha in figures |
| `RateBudget.ReserveAdmits` | src/box/brokerPacing.ts:730-763 | outside a cooldown a recovery goes out while fewer went out than any finite window reserves |
| `RateBudget.UnwindFits` | src/box/brokerPacing.ts:570-651 | if every finite window reserves n, then after any run without recoveries n cancels at any later instants are all admitted |
| `RateBudget.ReserveIsEnoughIff` | src/box/brokerPacing.ts:619-651 | a window reserves n if and only if the reserve fraction of the share exceeds n - 1 |
| `RateBudget.UnwindFitsBurstIff` | src/box/brokerPacing.ts:730-763 | after a burst of p placements n cancels fit if and only if p + n is within every finite share |
| `RateBudget.DefaultReserveStopsThirdCancel` | src/box/brokerPacing.ts:570-583 | after eight placements n cancels in the same second are all admitted if and only if n is at most two |
| `TransportPacing.ResolvePacing` | src/box/brokerPacing.ts:151-198 | the order gap is the override, the floor or the broker's default, exactly as its source says, never below the floor; the general gap defaults to 250 ms |
| `TransportPacing.ProfilesAre` | src/box/brokerPacing.ts:94-235 | the two brokers' defaults and floors, and the stricter of both for any other |
| `TransportPacing.PacingWait` | src/box/brokerPacing.ts:240-263 | the wait reaches exactly the interval after the last call; a clock that stepped back serves the full interval |
| `TransportPacing.TransportPacer.Submit` | src/box/brokerPacing.ts:362-402 | a call joins the end of the chain |
| `TransportPacing.TransportPacer.TakeTurn` | src/box/brokerPacing.ts:362-402 | the wait is the larger of the class gap and the absolute gap |
| `TransportPacing.TurnWaitIsLeast` | src/box/brokerPacing.ts:240-402 | no start that keeps both gaps is earlier than the one a call waits for |
| `TransportPacing.TransportPacer.Begin` | src/box/brokerPacing.ts:362-402 | starting stamps the absolute watermark and that of its class only |
| `TransportPacing.TransportPacer.Settle` | src/box/brokerPacing.ts:362-402 | a failed operation frees the chain exactly as a good one does |
| `TransportPacing.TransportPacer.Repoint` | src/box/brokerPacing.ts:339-341 | repointing keeps the watermarks |
| `TransportPacing.EveryRunIsPaced` | src/box/brokerPacing.ts:308-402 | over every run with failures and repoints, operations never overlap, start in arrival order, and keep the absolute and the class gap |
| `TransportPacing.BurstTakesAtLeastBudget` | src/box/brokerPacing.ts:266-270 | while pacing is unchanged the burst budget bounds first-to-last start time from below |
| `TransportPacing.BurstBudgetIsTight` | src/box/brokerPacing.ts:266-270 | and some run of n order calls takes exactly the budget |
| `TransportPacing.FloorAlwaysHolds` | src/box/brokerPacing.ts:94-402 | over every run with any overrides and broker switches, each start keeps the floor of the pacing it waited under, at least 100 ms, from every earlier one |
| `OrderEvidence.ReadQuantity` | src/box/brokerExecutionEvidence.ts:67-79 | a quantity is read exactly from a stated whole number that is not negative, so an absent one is never zero |
| `OrderEvidence.ReadPrice` | src/box/brokerExecutionEvidence.ts:87-93 | a price is read exactly from a stated positive number |
| `OrderEvidence.FilledIsHighestExplicit` | src/box/dhanBrokerAdapter.ts:419-491 | after any mix of stream updates and reads, filled is the maximum of the start and every stated quantity |
| `OrderEvidence.HighestIsAttained` | src/box/dhanBrokerAdapter.ts:1083-1178 | that maximum bounds every stated quantity and is the start or one of them |
| `OrderEvidence.FilledIgnoresOrder` | src/box/dhanBrokerAdapter.ts:419-491 | two deliveries of the same observations agree on the filled quantity |
| `OrderEvidence.RefreshGuardIsRedundant` | src/box/dhanBrokerAdapter.ts:1028-1047 | the lower-quantity guard after a re-read never changes anything |
| `OrderEvidence.ProjectionFreezesOnlyOnExplicit` | src/box/dhanBrokerAdapter.ts:1083-1178 | a projection reaches complete, partial, cancelled or rejected only on a stated quantity |
| `OrderEvidence.StreamFreezesOnlyOnExplicit` | src/box/dhanBrokerAdapter.ts:419-491 | a stream update moves an order into such a state only on a stated quantity |
| `OrderEvidence.BooksCloseOnlyOnStatedQuantity` | src/box/brokerExecutionEvidence.ts:142-245 | over every run from a request, such a state implies that some source stated a quantity |
| `OrderEvidence.StreamsKeepTerminality` | src/box/dhanBrokerAdapter.ts:462-470 | any number of stream updates leaves a terminal order terminal |
| `OrderEvidence.ReadKeepsTerminalityIff` | src/box/dhanBrokerAdapter.ts:1083-1117 | after a read the order is terminal if and only if the read states a quantity and its label ends an order filled that far |
| `OrderEvidence.StreamTerminalIff` | src/box/dhanBrokerAdapter.ts:462-470 | after a stream update it is terminal if and only if it was or the update proves an end |
| `OrderEvidence.TerminalIff` | src/box/dhanBrokerAdapter.ts:419-1178 | over every mixed run the order is terminal if and only if it started so or an observation proved its end, and every read since proved an end again |
| `OrderEvidence.ReadStateIs` | src/box/dhanBrokerAdapter.ts:203-234 | after a read, each of the eight possible states if and only if its labels, fills and stated quantity |
| `OrderEvidence.StreamStateIs` | src/box/dhanBrokerAdapter.ts:203-470 | after a stream update, the end it proves, else a kept terminal state, else the state of its label, else no change |
| `OrderEvidence.EndIsLastClosing` | src/box/dhanBrokerAdapter.ts:203-1178 | over every mixed run a terminal order is in the end that the last closing observation names |
| `OrderEvidence.ObservedPrice` | src/box/brokerExecutionEvidence.ts:153-245 | what one observation does to the stored price |
| `OrderEvidence.PriceIsLastSet` | src/box/dhanBrokerAdapter.ts:419-1178 | over every mixed run the stored average price is the one set last, and which observations set one |
| `OrderEvidence.ReadRecords` | src/box/dhanBrokerAdapter.ts:1083-1178 | what a read records: broker id, remainder, trades or one aggregate fill, confirmed quantity |
| `OrderEvidence.ReadPriceQuality` | src/box/brokerExecutionEvidence.ts:153-245 | the recorded price quality of a read |
| `OrderEvidence.VerdictAccounting` | src/box/brokerExecutionEvidence.ts:153-245 | when a verdict is sufficient and when its own accounting flag is set |
| `OrderEvidence.ReadAccountingIff` | src/box/brokerExecutionEvidence.ts:153-256 | the books of a read are closed if and only if its state is certain and any fill is priced |
| `OrderEvidence.AccountingIsCautious` | src/box/brokerExecutionEvidence.ts:247-256 | an uncertain state is never final; without recorded evidence a fill needs a price |
| `OrderEvidence.StreamRecords` | src/box/dhanBrokerAdapter.ts:419-491 | an update is ignored only when behind on the quantity and naming no new state; what any other records |
| `OrderEvidence.StreamAccountingIff` | src/box/brokerExecutionEvidence.ts:153-256 | the books of an update are closed if and only if it proves something certain and any fill is priced |
| `OrderEvidence.RestCanReopen` | src/box/dhanBrokerAdapter.ts:1083-1178 | one read turns a complete order into an open one |
| `OrderEvidence.OverlappingReadKeepsFillIff` | src/box/dhanBrokerAdapter.ts:1018-1054 | updates that land during a re-read keep their fill if and only if none stated more than the snapshot and the answer |
| `OrderEvidence.OverlappingReadCanRewind` | src/box/dhanBrokerAdapter.ts:1018-1054 | five filled by the stream, overwritten by an older three |
| `OrderEvidence.UnpricedFillNeverComplete` | src/box/brokerExecutionEvidence.ts:153-256 | over every run a positive fill without a price is never accounted complete |
| `OrderEvidence.UnpricedReadNeverComplete` | src/box/brokerExecutionEvidence.ts:247-256 | the same for one read of any known order |
| `OrderSubmission.OrderSession.Submit` | src/box/dhanBrokerAdapter.ts:609-656 | all gates and the claim happen before the first await; a refused submission leaves the session unchanged |
| `OrderSubmission.OrderSession.SendBoundary` | src/box/dhanBrokerAdapter.ts:545-560 | the guards at the wire either let exactly one post out or none |
| `OrderSubmission.OrderSession.Settle` | src/box/dhanBrokerAdapter.ts:672-831 | only a proven no-post releases the claim; every other answer keeps the id occupied |
| `OrderSubmission.ClaimedIff` | src/box/dhanBrokerAdapter.ts:609-656 | a submission is claimed if and only if every gate is open and the id is new, and then adds exactly that order |
| `OrderSubmission.ClaimedReachesWire` | src/box/dhanBrokerAdapter.ts:609-672 | a claimed submission whose guards pass reaches the wire once; one they refuse does not |
| `OrderSubmission.AnswerLeaves` | src/box/dhanBrokerAdapter.ts:672-831 | the state each answer leaves: freed, rejected, quarantined, looked up, working or verified; no other order changes |
| `OrderSubmission.OrderSession.ApplyOrderUpdate` | src/box/dhanBrokerAdapter.ts:419-491 | the update is one observation of that order; it is applied only to a known order and when it carries news |
| `OrderSubmission.OrderSession.StoreRefresh` | src/box/dhanBrokerAdapter.ts:1018-1054 | the answer is merged into the earlier snapshot and overwrites what is stored |
| `OrderSubmission.EveryRunKeeps` | src/box/dhanBrokerAdapter.ts:609-743 | in every run live calls have distinct, claimed ids, unsent ids are not on the wire, and posts are distinct |
| `OrderSubmission.AtMostOnePost` | src/box/dhanBrokerAdapter.ts:609-743 | over every interleaving at most one placement per client order id reaches the wire |
| `OrderSubmission.PostedIdIsClosed` | src/box/dhanBrokerAdapter.ts:609-626 | a later submission of a posted id changes nothing |
| `OrderSubmission.FillIsHighestSince` | src/box/dhanBrokerAdapter.ts:419-743 | while a submission is out the stored fill is the highest quantity stated since its claim |
| `OrderSubmission.AnswerKeepsFillIff` | src/box/dhanBrokerAdapter.ts:696-880 | in every run, a working, rejected, unresolved or looked-up answer stores what it states itself, so the fill survives if and only if no observation since the claim stated more |
| `OrderSubmission.AnswerCanRewind` | src/box/dhanBrokerAdapter.ts:696-880 | a run from five seen on the stream to zero after a working answer, or to three after a lookup |
| `OrderSignals.ObservationSignals.Enter` | src/box/dhanBrokerAdapter.ts:373-382 | a latched observation is consumed instead of parking |
| `OrderSignals.ObservationSignals.Leave` | src/box/dhanBrokerAdapter.ts:386-389 | leaving removes this waiter and an empty set |
| `OrderSignals.ObservationSignals.Wake` | src/box/dhanBrokerAdapter.ts:393-403 | every parked waiter of the order is woken, or the observation is latched |
| `OrderSignals.NeverAsleepOnUnseen` | src/box/dhanBrokerAdapter.ts:359-403 | in every run the loop is never asleep while an applied observation is unread |
| `OrderSignals.ObservationIsNotLost` | src/box/dhanBrokerAdapter.ts:373-403 | an observation settles the sleep in progress or makes the next wait return at once, whatever happens in between |
| `OrderSignals.TimerEndsSleep` | src/box/dhanBrokerAdapter.ts:373-390 | a sleep ends by its timer without any stream, and the loop then reads everything applied |
| `OrderSignals.WaitReturnsAtOnceIff` | src/box/dhanBrokerAdapter.ts:373-403 | for any number of waiters and every run, a wait returns at once if and only if an observation found nobody parked and nobody entered a wait on the order since |
| `OrderSignals.LatchServesFirstEntrant` | src/box/dhanBrokerAdapter.ts:373-403 | until the next observation the latch is there if and only if nobody has entered since |
| `OrderSignals.SecondWaiterMissesLatch` | src/box/dhanBrokerAdapter.ts:373-403 | whatever the registry, the second waiter to enter sleeps on the news |
| `OrderWaiting.StreamedNeverRewinds` | src/box/dhanBrokerAdapter.ts:419-491 | updates that land while waiting never lower the fill nor reopen a terminal order |
| `OrderWaiting.AdapterIsLawful` | src/box/dhanBrokerAdapter.ts:419-1178 | the adapter's merges have all the loops rely on: fills never shrink, updates never reopen |
| `OrderWaiting.SessionAdoptsFills` | src/box/dhanBrokerAdapter.ts:1018-1054 | the fill held after a sleep, an answered or failed read, and a cancel request, in terms of what was stated |
| `OrderWaiting.PollCapIsLeast` | src/box/dhanBrokerAdapter.ts:890-898 | the poll cap is the least that leaves ten polls over what the deadlines need |
| `OrderWaiting.ConfirmCapIsLeast` | src/box/dhanBrokerAdapter.ts:973-978 | the confirm cap is the least that leaves five over what the cancel window needs |
| `OrderWaiting.Sleep` | src/box/dhanBrokerAdapter.ts:916-925 | one sleep merges what landed and loses nothing |
| `OrderWaiting.RereadOrder` | src/box/dhanBrokerAdapter.ts:1018-1054 | an answer is both returned and stored, a failed read returns what was known, only an auth error propagates |
| `OrderWaiting.RequestCancel` | src/box/dhanBrokerAdapter.ts:945-972 | an order with a broker id is marked cancel-requested; without one nothing changes |
| `OrderWaiting.LookOnce` | src/box/dhanBrokerAdapter.ts:981-984 | one confirming look is a sleep and a re-read |
| `OrderWaiting.Confirm` | src/box/dhanBrokerAdapter.ts:973-994 | a conclusive look decides; without one the order is quarantined, and only at the deadline or the cap |
| `OrderWaiting.ProtectiveCancel` | src/box/dhanBrokerAdapter.ts:941-994 | the cancel is requested first; it ends within the confirm cap, terminal or quarantined, and what is quarantined is stored as such |
| `OrderWaiting.QuarantineWaitsOut` | src/box/dhanBrokerAdapter.ts:971-994 | a quarantine with confirms to spare means the whole cancel window has passed |
| `OrderWaiting.PollOnce` | src/box/dhanBrokerAdapter.ts:916-930 | one poll: sleep, adopt, and unless that ended it, re-read and time a first fill |
| `OrderWaiting.WaitForResolution` | src/box/dhanBrokerAdapter.ts:883-932 | for any broker and clock, a protective cancel is sent if and only if the loop is live with its polls used up or one of the three deadlines passed; it ends within both caps, terminal or quarantined unless the session was refused; fills never shrink |
| `OrderWaiting.EndInTimeNeedsNoCancel` | src/box/dhanBrokerAdapter.ts:900-932 | if no deadline has passed and a poll within the cap proves an end, that order is the result and no cancel is sent |
| `OrderWaiting.FirstDeadlineCancels` | src/box/dhanBrokerAdapter.ts:901-912 | a live loop cancels at its first passed deadline |
| `OrderWaiting.PartialIsTimedIff` | src/box/dhanBrokerAdapter.ts:888-929 | a partial fill is being timed if and only if something is filled |
| `OrderWaiting.StoppedClockIsNeverLate` | src/box/dhanBrokerAdapter.ts:905-913 | on a clock that never moves no deadline passes |
| `OrderWaiting.EachDeadlineCounts` | src/box/dhanBrokerAdapter.ts:905-913 | each of the three deadlines ends the wait on its own |
| `BoundedQueue.BoundedQueue.EmitOverload` | src/box/boundedQueue.ts:251-267 | the flag is raised and the event counted once |
| `BoundedQueue.BoundedQueue.ReassessOverload` | src/box/boundedQueue.ts:237-249 | the flag follows depth and the drop latch |
| `BoundedQueue.BoundedQueue.Reindex` | src/box/boundedQueue.ts:230-235 | the rebuilt index is exact |
| `BoundedQueue.BoundedQueue.DropOldestItem` | src/box/boundedQueue.ts:219-228 | the head goes, the drop is counted and latched, the index stays exact |
| `BoundedQueue.BoundedQueue.Replace` | src/box/boundedQueue.ts:143-158 | the same key replaces its payload in place, keeping slot and age |
| `BoundedQueue.BoundedQueue.Admit` | src/box/boundedQueue.ts:158-172 | a new key drops the head only when coalescing at capacity, then joins the end |
| `BoundedQueue.BoundedQueue.Enqueue` | src/box/boundedQueue.ts:143-173 | the indexed queue does what the ordered queue does |
| `BoundedQueue.BoundedQueue.Dequeue` | src/box/boundedQueue.ts:175-186 | hands out the head, clears the latch, keeps the index exact |
| `BoundedQueue.BoundedQueue.DrainAll` | src/box/boundedQueue.ts:188-197 | hands out everything in order and clears the latch |
| `BoundedQueue.StepSound` | src/box/boundedQueue.ts:94-267 | one operation keeps conservation and the overload meaning, and counts an event exactly on a rise of the flag |
| `BoundedQueue.CountsAndOverload` | src/box/boundedQueue.ts:94-267 | over every run enqueued = processed + dropped + coalesced + depth, and the latch is "a drop since the last drain" |
| `BoundedQueue.OverloadMeaning` | src/box/boundedQueue.ts:130-173 | never-drop is overloaded exactly over its threshold; a coalescing queue stays within capacity and is overloaded exactly after an unseen drop |
| `BoundedQueue.SlotsHoldLatest` | src/box/boundedQueue.ts:143-173 | while coalescing, keys stay distinct and each slot holds the latest value of its key |
| `BoundedQueue.CoalesceStep` | src/box/boundedQueue.ts:143-173 | one arrival replaces a payload in place, or joins the end with the head dropped exactly when the queue was full |
| `BoundedQueue.LeavingStep` | src/box/boundedQueue.ts:175-197 | the head alone, or everything in order, leaves and is counted |
| `BoundedQueue.NeverDropIsFifo` | src/box/boundedQueue.ts:143-197 | what was handed out followed by what is queued is everything put in, in order |
| `BoundedQueue.HeadIsOldest` | src/box/boundedQueue.ts:123-128 | on a forward clock slots are in age order, also after in-place replacement |
| `StagePipeline.PipelineStage.Put` | src/box/boundedQueue.ts:323-327 | enqueueing never runs a handler |
| `StagePipeline.PipelineStage.Continue` | src/box/boundedQueue.ts:382-387 | the loop hands its handler the head of the queue or ends |
| `StagePipeline.PipelineStage.StartDrain` | src/box/boundedQueue.ts:374-391 | a second pump of a draining stage does nothing |
| `StagePipeline.PipelineStage.OnHandlerSettled` | src/box/boundedQueue.ts:382-391 | a handler's end resumes the loop; its failure ends it and frees the stage |
| `StagePipeline.StagePipeline.AddStage` | src/box/boundedQueue.ts:310-320 | a name is used once, and a new stage disturbs no other |
| `StagePipeline.StagePipeline.Enqueue` | src/box/boundedQueue.ts:323-327 | only the named stage changes; an unknown name changes nothing |
| `StagePipeline.PipelineStage.Perform` | src/box/boundedQueue.ts:323-391 | each event moves the stage objects as the stage function does |
| `StagePipeline.StagePipeline.Dispatch` | src/box/boundedQueue.ts:323-391 | an event of one stage changes the objects of that stage only |
| `StagePipeline.StagePipeline.DrainStage` | src/box/boundedQueue.ts:374-391 | starting a drain changes only the named stage |
| `StagePipeline.StagePipeline.OnHandlerSettled` | src/box/boundedQueue.ts:382-391 | a handler that settles, well or badly, changes only its own stage |
| `StagePipeline.StagesAreIndependent` | src/box/boundedQueue.ts:302-391 | in every interleaving each stage ends as it would alone on its own events; the pipeline's methods take exactly these steps on the objects |
| `StagePipeline.NeverDropStageHandlesAll` | src/box/boundedQueue.ts:369-391 | at most one handler runs at a time, and handled followed by queued is everything put in if and only if no undefined value was taken |
| `StagePipeline.PumpDrainsEverything` | src/box/boundedQueue.ts:374-391 | a pumped stage whose handlers end well hands over everything queued and ends idle and empty |
| `StagePipeline.FailureFreesStage` | src/box/boundedQueue.ts:382-391 | a failed handler ends the drain, keeps what is queued and frees the stage |
| `StagePipeline.UndefinedStopsDrain` | src/box/boundedQueue.ts:382-387 | an undefined value ends the drain with work queued |
| `ReadinessOrdering.ClientShowsMaximum` | src/box/backendInstance.ts:214-295 | in any order and with repeats the client shows the maximum by ordinal and generation of what was delivered |
| `ReadinessOrdering.DeliveryOrderIsIrrelevant` | src/box/backendInstance.ts:214-295 | two clients given the same decisions show the same one |
| `ReadinessOrdering.NeverRewinds` | src/box/backendInstance.ts:214-295 | further deliveries never move the client back |
| `ReadinessOrdering.VerdictMeans` | src/box/backendInstance.ts:214-295 | each verdict if and only if its case; a decision that cannot be ordered, or claims a known ordinal for another process, changes nothing |
| `ReadinessOrdering.BackendInstance.ResolveBootOrdinal` | src/box/backendInstance.ts:130-170 | a resolved process keeps its ordinal; a failed read can be tried again; a missing or non-positive row resolves to none |
| `ReadinessOrdering.EveryFleetKeeps` | src/box/backendInstance.ts:130-170 | over all boots, claims, failures and lost answers, ordinals are distinct, were issued, and never change once published |
| `ReadinessOrdering.FleetDecisionsConverge` | src/box/backendInstance.ts:130-295 | a client given any published decisions in any order shows the newest of them |
| `ReadinessOrdering.PublishedStableIff` | src/box/backendInstance.ts:130-170 | a step leaves every published ordinal in force if and only if it does not return a positive row to a process that has published |
| `ReadinessOrdering.OverlappingFleetKeeps` | src/box/backendInstance.ts:130-170 | with overlapping resolutions, ordinals stay distinct, issued and stable over every run without such a step |
| `ReadinessOrdering.SerialNeverRebinds` | src/box/backendInstance.ts:130-170 | with one resolution at a time no step is of that kind |
| `ReadinessOrdering.OverlappingDecisionsConverge` | src/box/backendInstance.ts:130-295 | and then clients converge on the newest decision, overlaps included |
| `ReadinessOrdering.RebindThenPublishBreaks` | src/box/backendInstance.ts:130-170 | after any such step the process's next decision gives it a second ordinal |
| `ReadinessOrdering.OverlapGivesTwoOrdinals` | src/box/backendInstance.ts:130-170 | a run of two overlapping resolutions that publishes one process under two ordinals |
| `EntryOrder.EntrySubmissionOrder` | src/box/entrySubmissionOrder.ts:64-79 | the two-bucket loop computes the slots the order laws are about |
| `EntryOrder.EntrySlotsAre` | src/box/entrySubmissionOrder.ts:64-79 | the two transport orders in full |
| `EntryOrder.EntryOrderIsHedgeFirst` | src/box/entrySubmissionOrder.ts:64-93 | each leg once, every BUY before any SELL, rank equal to position |
| `EntryOrder.CanonicalWithinSide` | src/box/entrySubmissionOrder.ts:64-79 | within each side the canonical order is kept |
| `EntryOrder.IsHedgeFirstSequence` | src/box/entrySubmissionOrder.ts:100-107 | true if and only if no BUY follows a SELL |
| `EvidenceTiming.MonoElapsed` | src/box/evidenceTiming.ts:256-261 | the exact difference of two readings in order, and nothing otherwise |
| `EvidenceTiming.MismatchIff` | src/box/evidenceTiming.ts:76-103 | a mismatch if and only if both identities are known and differ in broker, or in an account or session both name |
| `EvidenceTiming.StatusMeans` | src/box/evidenceTiming.ts:320-420 | each of the four answers if and only if its case, and the age reported |
| `EvidenceTiming.NoClockNoEvidence` | src/box/evidenceTiming.ts:345-355 | without a reading of its own clock nothing is usable |
| `EvidenceTiming.UsableIffFresh` | src/box/evidenceTiming.ts:320-420 | a figure is usable if and only if obtained, for this account, timed, not from the future and within the bound; waiting never revives it |
| `BoxFunding.ToPaiseIsNearest` | src/box/boxCapital.ts:49-52 | the nearest whole paise, half up |
| `BoxFunding.LegPaiseMeans` | src/box/boxCapital.ts:128-128 | a leg's paise are 100 times price times quantity, to within half a paisa per contract |
| `BoxFunding.SidePaiseMeans` | src/box/boxCapital.ts:106-150 | a side's paise are 100 times the sum of price times quantity, within half a paisa per contract and exactly for limits in whole paise |
| `BoxFunding.GrossMeans` | src/box/boxCapital.ts:106-150 | for limits in whole paise the gross is 100 times the rupees of both sides, never netted |
| `BoxFunding.CapAdmitsIff` | src/box/boxCapital.ts:206-262 | a cap admits if and only if the box is complete and its gross rupees are within the cap, rounded half up |
| `BoxFunding.NoCapAdmitsAll` | src/box/boxCapital.ts:206-262 | no cap, or one that is not positive, admits everything |
| `BoxFunding.SplitChangesNothing` | src/box/boxCapital.ts:106-150 | splitting a request at the same price changes no side's paise |
| `BoxFunding.GrossEntryNotional` | src/box/boxCapital.ts:106-150 | gross paise over both sides, complete if and only if every leg is priced and the count is right |
| `BoxFunding.WorstCaseEntryCost` | src/box/boxCapital.ts:485-522 | gross and net debit as sums by side, the net within the gross |
| `BoxFunding.NextStage` | src/box/boxCapital.ts:615-681 | one loop step yields that stage, with a reason exactly when its requirement is unknown |
| `BoxFunding.BuildFundingStages` | src/box/boxCapital.ts:596-683 | every stage in transmission order, hedge-first detected exactly, reasons empty if and only if all is known |
| `BoxFunding.SortByRankMeans` | src/box/boxCapital.ts:607-607 | stages follow the ranks, and within a rank the order given |
| `BoxFunding.ByRoleIsLast` | src/box/boxCapital.ts:606-606 | of several requests for a role the last one counts |
| `BoxFunding.StageNeeds` | src/box/boxCapital.ts:614-680 | each stage needs the greater of the BUY premium so far and the margin that applies, initial while legging and final only at the last leg |
| `BoxFunding.UnpricedStageIsUnknown` | src/box/boxCapital.ts:617-651 | an unpriced or missing leg leaves its stage unknown |
| `BoxFunding.WorstStageIsMaximum` | src/box/boxCapital.ts:596-683 | for a priced plan the worst stage is the maximum of both margins and the BUY premium |
| `BoxFunding.HedgePremium` | src/box/boxCapital.ts:1045-1064 | the request-side premium, present if and only if there are hedges, all their requests are priced and as many match as there are hedges |
| `BoxFunding.HedgePremiumPresentIff` | src/box/boxCapital.ts:1045-1064 | with distinct roles that is: every hedge is requested and priced |
| `BoxFunding.PricedPlanHasPremium` | src/box/boxCapital.ts:1045-1064 | a fully priced plan with distinct roles meets it |
| `BoxFunding.RepeatedRoleHidesMissingHedge` | src/box/boxCapital.ts:1045-1064 | a role requested twice stands in for one never requested |
| `BoxFunding.PremiumTwoWays` | src/box/boxCapital.ts:1045-1064 | summed by slot or by request, each side's premium is the same |
| `BoxFunding.RolesAreSides` | src/box/boxCapital.ts:485-522 | over the plan's own requests it is what that side transacts |
| `BoxFunding.BoxWorstStage` | src/box/boxCapital.ts:596-683 | for a box in its own order the worst stage is the maximum of initial margin, final margin and hedge premium |
| `EconomicAdmission.FigureMeans` | src/box/boxCapital.ts:388-436 | a figure is usable if and only if it has a value that aged as usable, and is labelled by how it aged |
| `EconomicAdmission.AdmissibleIffFaultless` | src/box/boxCapital.ts:1118-1257 | the controls' demands hold if and only if none of the eight faults does |
| `EconomicAdmission.EvaluateEconomicAdmission` | src/box/boxCapital.ts:1118-1257 | the reasons are exactly the faults present, and admission is the absence of any |
| `EconomicAdmission.PlainAdmissionIff` | src/box/boxCapital.ts:1118-1257 | without the stage model, funds cover admits if and only if fresh funds cover the fresh broker margin, else the gross of a complete box |
| `EconomicAdmission.WorstCoversEach` | src/box/boxCapital.ts:819-1005 | funds cover the worst stage if and only if they cover every stage |
| `EconomicAdmission.StageAdmissionIff` | src/box/boxCapital.ts:819-1257 | with stage funding required, admission holds if and only if fresh funds cover every stage plus charges, reserve and encumbrance, with cap and margin controls |
| `EconomicAdmission.AdmittedBoxIsFunded` | src/box/boxCapital.ts:819-1257 | an admitted box has funds for both margins and the whole hedge premium, plus everything set aside |
| `CalibrationBuffer.Sizes` | src/box/calibrationPersistence.ts:99-110 | both sizes exactly: the cap as given or twenty batches and at least a thousand, the batch as asked within one and the cap |
| `CalibrationBuffer.CalibrationPersistenceBuffer.Record` | src/box/calibrationPersistence.ts:132-151 | appends, sheds the oldest beyond the cap with the loss counted, flushes at the batch size |
| `CalibrationBuffer.CalibrationPersistenceBuffer.Trim` | src/box/calibrationPersistence.ts:137-144 | exactly the overflow is shed and counted |
| `CalibrationBuffer.CalibrationPersistenceBuffer.Flush` | src/box/calibrationPersistence.ts:161-188 | one write at a time takes the whole buffer; a sink that throws at once leaves the marker set |
| `CalibrationBuffer.CalibrationPersistenceBuffer.Settle` | src/box/calibrationPersistence.ts:168-185 | the batch is counted persisted or lost, never both, and the marker cleared |
| `CalibrationBuffer.CalibrationPersistenceBuffer.FinishDispose` | src/box/calibrationPersistence.ts:191-203 | disposal changes nothing but the flag |
| `CalibrationBuffer.EveryRunIsSound` | src/box/calibrationPersistence.ts:132-203 | accepted = persisted + lost + pending + in flight, pending within the cap, and sent followed by pending is an in-order, duplicate-free part of what was recorded |
| `CalibrationBuffer.FreshIsSound` | src/box/calibrationPersistence.ts:99-110 | any configuration starts in such a state |
| `CalibrationBuffer.OneFlushAtATime` | src/box/calibrationPersistence.ts:161-167 | while a write is out only its own answer changes what was sent |
| `CalibrationBuffer.PendingIsNewest` | src/box/calibrationPersistence.ts:132-151 | over every run the pending samples are the newest accepted ones |
| `CalibrationBuffer.AcceptedSampleWaits` | src/box/calibrationPersistence.ts:132-151 | an accepted sample not handed on grows the buffer by one up to the cap, and what is shed is counted lost |
| `CalibrationBuffer.WriteAndSettle` | src/box/calibrationPersistence.ts:161-188 | a write takes everything pending and is counted persisted or lost by its outcome |
| `CalibrationBuffer.InertBufferDoesNothing` | src/box/calibrationPersistence.ts:132-163 | a disabled or disposed buffer does nothing |
| `CalibrationBuffer.SynchronousThrowWedges` | src/box/calibrationPersistence.ts:168-188 | once wedged, nothing is ever sent again |
| `CalibrationBuffer.WedgesIff` | src/box/calibrationPersistence.ts:161-188 | a flush wedges if and only if it had something to write and the sink threw at once |
| `CalibrationBuffer.DisposedStrandsBuffer` | src/box/calibrationPersistence.ts:191-203 | after disposal what is pending stays pending, neither sent nor lost |
| `CalibrationBuffer.NothingPendingIff` | src/box/calibrationPersistence.ts:132-188 | a run leaves nothing pending if and only if it started empty and accepted nothing, or some event took the buffer and nothing was accepted after it |
| `CalibrationBuffer.ShutDownStrandsNothingIff` | src/box/calibrationPersistence.ts:191-203 | for every run of events during the await, shutdown leaves nothing behind if and only if the final flush cleared the buffer and nothing was accepted, or a later event took it and nothing was accepted after |
| `CalibrationBuffer.ArrivalsWaitForWrite` | src/box/calibrationPersistence.ts:161-188 | until a write settles nothing is taken, so what is accepted meanwhile is pending |
| `CalibrationBuffer.IdleShutDownStrandsArrival` | src/box/calibrationPersistence.ts:191-203 | a sample recorded during the await of an idle shutdown is stranded |
| `CalibrationBuffer.SettledWriteLetsTailGo` | src/box/calibrationPersistence.ts:161-203 | with batches of one, a sample after the settle takes the waiting one along |
| `HistoricalGate.HistoricalGate.Acquire` | src/kite.ts:193-210 | the slot at once when free, else a place behind the interactive waiters or at the end |
| `HistoricalGate.HistoricalGate.ReleaseOnce` | src/kite.ts:173-177 | the first of watchdog and completion hands the slot on; the other does nothing |
| `HistoricalGate.EveryRunKeeps` | src/kite.ts:158-217 | one slot, interactive waiters before background ones, first come first served within a class, in every run |
| `HistoricalGate.ExactlyOneUnreleased` | src/kite.ts:158-217 | while busy exactly the last grant is unreleased, otherwise none |
| `HistoricalGate.ArrivesBehindInteractive` | src/kite.ts:198-209 | an interactive caller behind k interactive waiters is k-th in line |
| `HistoricalGate.SlotAfterKPlusOneReleases` | src/kite.ts:169-217 | it gets the slot at release k + 1, whoever arrives meanwhile and however often both ends try to release |
| `PaperPositions.ListPositions` | src/box/brokerAdapter.ts:445-488 | one pass over all fills gives every instrument its own fold and lists exactly the open ones |
| `PaperPositions.NetIsSignedSum` | src/box/brokerAdapter.ts:452-485 | net quantity is the signed sum of all fills, and a flat position has no cost |
| `PaperPositions.CostIsTurnover` | src/box/brokerAdapter.ts:468-474 | a position built on one side costs exactly the sum of price times quantity of its fills |
| `PaperPositions.ClosingMeans` | src/box/brokerAdapter.ts:475-485 | a part close keeps the cost of the rest, a full close leaves nothing, a crossing re-opens at its own price |
| `PaperPositions.AverageWithinRange` | src/box/brokerAdapter.ts:445-488 | for every sequence of fills the average lies within the prices that built the direction and the cost an unpriced opening carried over |
| `PaperPositions.AverageBetweenOpeners` | src/box/brokerAdapter.ts:468-485 | with a priced opening fill the opening prices alone bound it |
| `PaperPositions.UnpricedFlipKeepsOldCost` | src/box/brokerAdapter.ts:481-485 | an unpriced flip leaves the new direction at the old one's cost, for all quantities |
| `PaperPositions.UnpricedOpeningUnderstates` | src/box/brokerAdapter.ts:464-474 | an unpriced opening from flat is averaged in as free, for all quantities and prices |

## Left out

- RateBudget: `parseRetryAfterMs`, the strictest-broker fallback limits and the diagnostic snapshot; the retry delay is an argument.
- RateBudget.RateBudgetLedger.Check: assumes a clock that never runs backwards, as pruning does; budgets are computed once because limits and policy never change.
- TransportPacing: the trimming and lower-casing of broker names, and pacer statistics; a wait of w milliseconds is assumed to take at least w.
- ResidualProjection.RunLaw: holds while the winners fit below 2^53 - 1, which is exactly when the code keeps it (see VersionCountsWinnersIff).
- ChargeWatermarks.DebitedOncePerPaisaIff: attempt ids hold no NUL character and the attempt stays retained; the day's end and its risk reset are outside the model.
- ChargeWatermarks: the bookkeeping around queued commands and the recovery attempt id format.
- OrderEvidence.FilledIsHighestExplicit: observations are applied one at a time; overlapping reads have OverlappingReadKeepsFillIff instead.
- PaperPositions.AverageBetweenOpeners: needs a priced opening fill; without one AverageWithinRange is the bound. No converse, since a much cheaper later addition can bring such an average back into the range.
- OrderSubmission.OrderSession.Settle: the verification read behind a terminal-looking placement label is an arbitrary order (`Claimed`), which AnswerKeepsFillIff leaves aside.
- OrderSubmission.AnswerKeepsFillIff: observations of the order are applied one at a time; an overlapping re-read is a `Write` and has OverlappingReadKeepsFillIff.
- OrderSubmission: the HTTP layer, the correlation and broker-id maps, `listOrders`, `adoptOrder`, `modifyOrder` and orphans; a reported no-post is assumed true.
- OrderWaiting: the order is assumed to stay in the session map while it is awaited; timing marks and reject texts.
- OrderSignals.NeverAsleepOnUnseen: one waiter per order; several have WaitReturnsAtOnceIff instead.
- BoundedQueue.OverloadMeaning: a positive capacity; CountsAndOverload also covers zero, and a negative capacity is not given an overload meaning.
- ReadinessOrdering.FleetDecisionsConverge: resolutions of one process do not overlap; OverlappingDecisionsConverge covers those that do.
- ReadinessOrdering: the SQL of the claim, represented by an atomic increment that may fail before or after its commit.
- BoxFunding: display figures, breakdowns and notes; quantities are whole numbers and margins whole paise.
- EvidenceTiming: `readEvidence`'s timer race and the order-plan fingerprint.
- EconomicAdmission: partial-recovery advice (`decidePartialRecovery`), which is a flat choice.
- HistoricalGate: the 350 ms gap between starts and the timers themselves; the watchdog is a release attempt at any time.
- PaperPositions: the sort of fills by time and id; fills are taken in that order. Averages are real numbers without rounding.
- CalibrationBuffer: the flush timer, which only adds flush events.
- HTTP routes, configuration parsing, tickers, charges, market-data sessions and other modules not listed above: wiring, or simpler forms of the same arguments.
