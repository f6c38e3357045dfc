# Chain bridge: what its synchronisation keeps

A Dafny model of the parts of the chain bridge that copy data from the chain into tables: block
ingestion, the reading of transaction logs, the Millions deposit records, leaderboards and biggest
winners, and the paging of replies. Each part has a description of what the code does as functions on
values, methods that do it in place where the code does, and lemmas that say what follows for every
input and every run.

`dafny verify dfyconfig.toml` checks everything.

## The parts

| file | content |
|---|---|
| Decimal, Options, Occurrences, Paging | decimal text as a prefix code; lists without repetition in order of first appearance; permutations; lists cut into pages |
| JobKeys, Queues | job identifiers and the job queue |
| Bisection | the backward check of a range: counting, splitting, what one sweep dispatches |
| Ingestion | the ingestion protocol as a transition system with any number of concurrent attempts |
| QueueInvariant, SweepSafety, RangeJobs, CrashConsistency | what every run of the protocol keeps |
| BackwardCheck, BlockConsumer, IngestAttempt, LiveWindow, SchedulerSteps | the consumer and the scheduler as sequential code, and their place in the protocol |
| LogPlaces, EventFold, CoinString | addresses, amounts, rewards and deposit jobs read from logs; splitting a coin string |
| Deposits, DepositOverlaps | the deposit records as a state machine, for attempts one after the other and for attempts that overlap |
| Grouping, Leaderboard | grouping by depositor, sorting, ranking, replacing a pool's rows |
| BiggestWinner, DrawsSync | the running maximum of returns, and the job that feeds it |
| Pagination | pages of a list |

## What is assumed of the surroundings

- Queue: adding a job whose identifier is known does nothing; a failed attempt is retried while
  attempts are left; a failed job stays; a completed one may be dropped at any later time; a job may be
  handed out again while an older attempt still runs.
- Database: a save is an upsert by primary key of every column it is given and a bulk save is one
  transaction; blocks are never deleted.
- Chain: the block at a height and its transactions never change, no transaction is in two blocks,
  draws of a pool and prizes of a draw have distinct numbers, no prize is zero.
- A scheduled synchronisation of draws or depositors is over, or has stopped, before the next one starts.
- The chain client, clocks and the failure of a write are parameters or steps.

## Where the code does less than its words

- "Only missing blocks and some of their neighbors will be ingested" (README.md:91) and the daily check
  "that we did not miss a block" (src/async/schedulers/block.scheduler.ts:23) suggest that every missing
  block is found. The count leaves out the right end of each range while the split does not, so a height
  that is the right end of its leaf and alone in missing there is dropped
  (`Bisection.LoneMidpointIsDropped`). `Bisection.MissedExactly` says when this happens and
  `SweepSafety.SweepSafety` what holds instead.
- A block whose ingest job has failed stays missing although every later tick and sweep dispatches its
  height again: the failed job stays in the queue and its identifier hides the new one
  (`QueueInvariant.FailedStaysMissing`).
- A stored block need not have its transactions: one crash between the two saves is enough, and nothing
  repairs it (`CrashConsistency.BlockWithoutItsTransaction`, `CrashConsistency.StrandedForEver`). It has
  them iff it was there at the start, has none, or some attempt at it performed its second save
  (`CrashConsistency.CompleteIffSecondSave`).
- Two events about one deposit in one block share a job identifier, so the later one is dropped, with
  its withdrawal identifier (`EventFold.WithdrawalInSameBlockIsLost`); a job gets in iff it is the first
  (`EventFold.OfferEntersIffFirst`).
- A withdrawal saved on a deposit can be lost again, and its block height can change, when attempts at jobs
  of that deposit overlap (`DepositOverlaps.WithdrawalCanBeForgotten`). `DepositOverlaps.ForgottenIffOvertaken`
  and `DepositOverlaps.FixedFieldsChangeIff` say exactly when; without such overlaps neither happens
  (`DepositOverlaps.UndisturbedIsAtomic`).
- "If the entity exists and the APR is lower, do nothing" (src/services/millions-biggest-winner.service.ts:38):
  an undefined return, nothing won on nothing deposited, would replace any record, and nothing else lowers
  one (`BiggestWinner.NeverLowersIffDefined`). The draws job offers no such return as long as no prize is
  zero; `BiggestWinner.RecordIsChosen` covers it all the same.
- The block height of a deposit is that of the first ingestion, not of the latest edit
  (`Deposits.BlockHeightIsNotLatest`).
- A reply with a limit of zero announces a next page for ever (`Pagination.ZeroLimitNeverEnds`).

## Model

| member | source | states |
|---|---|---|
| JobKeys.RenderIsInjective | src/async/consumers/block.consumer.ts:200-235 | for one chain, two jobs share an identifier only if they have the same kind and the same heights, negative ones included; so de-duplication never merges different work |
| Queues.AddIngestsEffect | src/async/consumers/block.consumer.ts:194-207 | a bulk add creates exactly the absent jobs of the range, with five attempts, and leaves every known job as it was |
| Queues.GivenUpAfterItsAttempts | src/async/consumers/block.consumer.ts:201 | a job is retried until it failed as often as it was given attempts, and given up then |
| Bisection.MissingIsAbsence | src/services/block.service.ts:38-44 | the row count is short of the span iff some height before the right end is absent |
| Bisection.SplitShape | src/async/consumers/block.consumer.ts:209-210 | the two halves tile the range, with spans floor(d/2) and ceil(d/2)-1 |
| Bisection.LeavesTile | src/async/consumers/block.consumer.ts:191-210 | the leaves of the bisection partition the closed root range in order |
| Bisection.LeafHeights | src/async/consumers/block.consumer.ts:191-210 | a leaf below a split holds 501 to 1001 heights |
| Bisection.RangeJobBound | src/async/consumers/block.consumer.ts:208-237 | the tree of a split root of n heights has at most n/501 leaves and 2*(n/501)-1 ranges |
| Bisection.SweepExact | src/async/consumers/block.consumer.ts:187-237 | one sweep dispatches a height iff something is missing in its leaf before the leaf's right end |
| Bisection.MissedExactly | src/async/consumers/block.consumer.ts:187-237 | a missing height is left behind iff it is the right end of its leaf and the only one missing there |
| Bisection.LoneMidpointIsDropped | src/async/consumers/block.consumer.ts:187-210 | a midpoint that alone is missing is never dispatched, whatever the range |
| Bisection.LeftBehindBound | src/async/consumers/block.consumer.ts:187-237 | a sweep leaves at most n/501 heights behind |
| Bisection.RunOneDecreases | src/async/consumers/block.consumer.ts:208-237 | every run of a range job lowers the number of range jobs that can still come, summed over the pending spans |
| Bisection.SweepWhileGrowing | src/async/consumers/block.consumer.ts:185-241 | in any order of runs and while the table grows, a sweep of n heights ends within 2*(n/501)-1 runs (one if it is not split) and dispatches between what sweeps of the last and of the first table would |
| Bisection.SweepIsOrderIndependent | src/async/consumers/block.consumer.ts:185-241 | on a fixed table every order of runs dispatches the same heights |
| BackwardCheck.VerifyJobsMeaning | src/async/consumers/block.consumer.ts:185-241 | a run adds exactly the unknown jobs it asks for, told by what is absent, and a second run adds nothing |
| BackwardCheck.VerifyAlone | src/async/consumers/block.consumer.ts:185-241 | the protocol running one range job alone does what the sequential code does and completes the job |
| QueueInvariant.StepKeepsQueue | src/async/consumers/block.consumer.ts:184-241 | every step keeps: an accepted job is still in the queue and not completed, or its work is done or handed to accepted jobs |
| QueueInvariant.ReachableOk | src/async/provider.ts:25-30 | that invariant holds in every reachable state, with retries, crashes, de-duplication and removal of completed jobs |
| QueueInvariant.FailedForEver | src/async/provider.ts:25-30 | a failed job stays as it is in every continuation: it is not retried or dropped, and adding it again does nothing |
| QueueInvariant.FailedStaysMissing | src/async/consumers/block.consumer.ts:194-207 | a missing block whose job has failed, with nothing left that would store it, is missing in every continuation without a request of a reader for it: live window and sweeps never bring it back |
| RangeJobs.RangeJobsOfRun | src/async/consumers/block.consumer.ts:208-237 | over every run, all sweeps together, roots included, ask for no more distinct ranges than the trees of the daily roots have |
| RangeJobs.RangeJobsAdded | src/async/consumers/block.consumer.ts:208-237 | in a run that drops no job from the queue, no more range jobs are added than that, counted one by one |
| RangeJobs.RangeJobsOfOneRoot | src/async/consumers/block.consumer.ts:208-237 | so a single root of n heights leads to at most 2*(n/501)-1 distinct ranges |
| SweepSafety.SweepSafety | src/async/consumers/block.consumer.ts:184-241 | once the queue is quiet, a missing height of a checked range has a failed ingest job, a failed range job above it, or is the uncounted right end of a range with nothing else missing |
| SweepSafety.DailyRootIsAccepted | src/async/schedulers/block.scheduler.ts:22-37 | a daily tick puts the stretch from the starting height to the head it read under check, for the rest of the run, even if the chain grew before the job was added |
| SweepSafety.FaultFreeSweep | src/async/consumers/block.consumer.ts:184-241 | without permanent failures, what stays missing are right ends of otherwise complete leaves |
| SweepSafety.FaultFreeBound | src/async/consumers/block.consumer.ts:184-241 | so at most n/501 heights of a split root stay missing |
| CrashConsistency.CrashConsistency | src/async/consumers/block.consumer.ts:173-175 | in every reachable state a stored transaction's block is stored, and a block lacks transactions only if an attempt is or stopped between its saves |
| CrashConsistency.StrandedForEver | src/async/consumers/block.consumer.ts:31-33 | a block left incomplete with no attempt between the saves keeps exactly the transactions it has, in every continuation |
| CrashConsistency.TxStoredIff | src/async/consumers/block.consumer.ts:173-175 | over every run a transaction of a block is stored iff it was at the start or an attempt at the block performed its second save |
| CrashConsistency.CompleteIffSecondSave | src/async/consumers/block.consumer.ts:31-175 | a stored block has all its transactions iff it was stored at the start, has none, or an attempt at it performed its second save |
| CrashConsistency.StoredBlocksAtRest | src/async/consumers/block.consumer.ts:173-181 | with nothing running, the blocks that stay incomplete for ever are exactly those the run stored, that have transactions, and of which no attempt performed its second save |
| CrashConsistency.BlockWithoutItsTransaction | src/async/consumers/block.consumer.ts:173-175 | a run of six steps after which a stored block lacks a transaction |
| IngestAttempt.AttemptAlone | src/async/consumers/block.consumer.ts:28-182 | left alone, an attempt at an ingest job leaves exactly what its replies allow: nothing new, the block alone, or the block with all its transactions; and the job completed, retried or given up |
| IngestAttempt.IngestAlone | src/async/consumers/block.consumer.ts:28-178 | so, when everything arrives, an ingest job stores the block with all its transactions, or changes no table if it was there |
| IngestAttempt.IngestMirrorsProtocol | src/async/consumers/block.consumer.ts:28-182 | from tables that mirror a state of the protocol the sequential code leaves tables that mirror what the steps of the protocol leave, for all replies that tell the truth |
| LiveWindow.TicksEffect | src/async/schedulers/block.scheduler.ts:47-62 | any sequence of ticks adds one job for each requested height that had none and nothing else |
| LiveWindow.UncoveredHeights | src/async/schedulers/block.scheduler.ts:47-62 | the heights no tick asks for are exactly those in the gaps left by jumps of more than 20 |
| LiveWindow.ContiguousIffSmallAdvances | src/async/schedulers/block.scheduler.ts:47-62 | the requested heights form one interval iff no advance of the head exceeds 20 |
| SchedulerSteps.LiveStepsAreATick | src/async/schedulers/block.scheduler.ts:47-62 | twenty adds of the protocol in a row, newest height first, are a tick of the live scheduler, for any head the chain had |
| SchedulerSteps.SingleAdds | src/async/schedulers/block.scheduler.ts:22-38 | in every reachable state the daily check and a request of a reader each add one more job, with a single attempt, under an identifier no job has |
| BlockConsumer.BlockPipeline.LiveIngest | src/async/schedulers/block.scheduler.ts:41-64 | the loop adds the jobs of the last 20 heights, the effect LiveWindow describes |
| BlockConsumer.BlockPipeline.BackwardIngest | src/async/schedulers/block.scheduler.ts:22-38 | always adds one more range job, from the starting height to the head, under an identifier no job has, with a single attempt |
| BlockConsumer.BlockPipeline.FailSafeIngest | src/services/block.service.ts:68-83 | adds one more job, under an identifier no job has, iff the height is not below the starting height |
| BlockConsumer.BlockPipeline.VerifyBlocksBackward | src/async/consumers/block.consumer.ts:185-241 | changes the queue as VerifyJobs says, which VerifyJobsMeaning describes |
| BlockConsumer.BlockPipeline.IngestBlock | src/async/consumers/block.consumer.ts:28-182 | when it skips, succeeds or fails, and which of the two tables each outcome has written |
| BlockConsumer.SaveAllEffect | src/services/transaction.service.ts:43-45 | after a bulk save each given key holds the last row given for it, and every other row is as before |
| EventFold.AddressesAreFirstOccurrences | src/async/consumers/block.consumer.ts:96-108 | the address list holds the seed and every address attribute once, in order of first appearance |
| Occurrences.FirstOccurrencesUnique | src/async/consumers/block.consumer.ts:104-108 | only one list meets that description |
| EventFold.AmountMeetsSpec | src/async/consumers/block.consumer.ts:109-126 | the amount is the last one of a delegate, unbond or withdraw_rewards event, else the first one at all, else absent |
| EventFold.AmountSpecUnique | src/async/consumers/block.consumer.ts:109-126 | only one amount meets that description |
| EventFold.RewardMeetsSpec | src/async/consumers/block.consumer.ts:113-120 | the reward is the amount held right before the last unbond amount, or that amount if none was held |
| EventFold.FirstOfferWins | src/async/consumers/block.consumer.ts:129-153 | for each deposit and height the queue keeps what it knew, else the first event's job |
| EventFold.OfferEntersIffFirst | src/async/consumers/block.consumer.ts:129-153 | from any queue, an event's job gets in iff the deposit was not known at that height and no earlier event of the block is about it; and what is stored in the end |
| EventFold.WithdrawalInSameBlockIsLost | src/async/consumers/block.consumer.ts:129-153 | of a deposit made and withdrawn in one block the queue keeps the job without the withdrawal identifier |
| EventFold.RenderIsInjective | src/async/consumers/block.consumer.ts:146 | the identifier of a deposit job tells the deposit and the height, even if the text of the deposit holds dashes |
| EventFold.AddressesRelatedToTransaction | src/utils/transactions.ts:5-42 | at most one address, that of the first signer field of the first message that has one |
| EventFold.SignerFields | src/utils/transactions.ts:9-34 | which field names a signer: grantee in an executed authorisation, else one of ten |
| LogPlaces.ItemAtPlace | src/async/consumers/block.consumer.ts:101-103 | every attribute of every event of every log is read, at the index that counts the attributes before it |
| LogPlaces.PlaceOfItem | src/async/consumers/block.consumer.ts:101-103 | nothing else is read |
| LogPlaces.IndexInOrder | src/async/consumers/block.consumer.ts:101-103 | and the order is that of the logs, their events and the attributes of these |
| EventFold.OfferMeaning | src/async/consumers/block.consumer.ts:129-153 | which events offer a deposit job, by their kind and their keys, and which values are in it |
| EventFold.ReadLogs | src/async/consumers/block.consumer.ts:101-155 | on any logs and any coin parser the nested loops yield, told from the places of the logs: every address value once, in order of first appearance; the last relevant amount, else the first; the amount held before the last unbond; and the deposit jobs |
| EventFold.FormatTx | src/async/consumers/block.consumer.ts:96-155 | the same for a transaction with the seed of a failed one, and no address is ever listed twice |
| CoinString.RoundTripExact | src/async/consumers/block.consumer.ts:110-111 | for amounts up to 2^53-1, splitting a printed coin gives it back if the denomination adds only zero digits and its exponent takes them back, or the amount is zero; and only then, where rounding plays no part |
| CoinString.RoundTripWithoutDigits | src/async/consumers/block.consumer.ts:110-111 | for denominations that start with no digit and no dot and digit: read back iff the denomination brings no exponent other than zero, or the amount is zero |
| CoinString.RoundTripOfUsualDenoms | src/async/consumers/block.consumer.ts:110-111 | denominations that start with a letter other than e and E are always read back |
| CoinString.RoundTripOfNegative | src/async/consumers/block.consumer.ts:110-111 | a negative amount is read back with its sign whenever the positive one is |
| CoinString.NumeralWithFraction | src/async/consumers/block.consumer.ts:110 | digits after a dot are read as a fraction |
| CoinString.NumeralWithSignedExponent | src/async/consumers/block.consumer.ts:110 | an exponent scales the number, up or down |
| CoinString.NoNumeral | src/async/consumers/block.consumer.ts:110-111 | a text that starts no number has no amount, and its denomination lacks three characters |
| Deposits.DepositConsumer.Prepare | src/async/consumers/millions.consumer.ts:21-89 | from the record found: which row the attempt saves and whether it succeeds; it saves iff it refreshes the record or withdraws, and what it refreshes shows the answer of the chain |
| Deposits.DepositConsumer.IngestMillionsDeposit | src/async/consumers/millions.consumer.ts:21-92 | an attempt nobody interferes with changes the one record and succeeds or fails as Attempt says; other records are untouched |
| Deposits.AttemptMeaning | src/async/consumers/millions.consumer.ts:39-90 | field by field: an edit takes sponsorship, winner and depositor from the chain, a creation everything from job and chain, a withdrawal its identifier; nothing else changes anything |
| Deposits.SuccessMeaning | src/async/consumers/millions.consumer.ts:23-60 | an attempt succeeds iff it refreshes or withdraws, or its job is below the height of the record |
| Deposits.FailureMeaning | src/async/consumers/millions.consumer.ts:23-75 | which failure each other attempt ends with |
| Deposits.LastAnswerIsShown | src/async/consumers/millions.consumer.ts:61-90 | over every run, with changing answers of the chain, a record shows the last answer that created or edited it |
| Deposits.NeverRefreshedStays | src/async/consumers/millions.consumer.ts:39-90 | without such an attempt it shows what it did at the start |
| Deposits.RunKeepsRecords | src/async/consumers/millions.consumer.ts:39-90 | over every run of attempts that do not overlap no record goes away, pool, amount and block height never change, a withdrawal is never forgotten |
| Deposits.NoEffect | src/async/consumers/millions.consumer.ts:53-60 | a failing attempt and a job below the stored height change nothing |
| Deposits.BlockHeightIsNotLatest | src/async/consumers/millions.consumer.ts:53-71 | a later edit leaves the block height of the first ingestion |
| Deposits.RunEndsWith | src/async/consumers/millions.consumer.ts:39-90 | the record a run ends with, told from which attempts succeeded |
| Deposits.Convergence | src/async/consumers/millions.consumer.ts:39-90 | two runs of attempts that do not overlap and complete the same jobs of a deposit, in any order with any retries, agree on everything but the block height, which is that of the first ingestion in each |
| DepositOverlaps.RecordsStay | src/async/consumers/millions.consumer.ts:39-89 | however attempts overlap, no record goes away |
| DepositOverlaps.FixedFieldsChangeIff | src/async/consumers/millions.consumer.ts:39-89 | pool, amount and block height of a record change during a run iff two attempts that found no record both save the one they create, and the two differ in these by their jobs and the answers of the chain |
| DepositOverlaps.ForgottenIffOvertaken | src/async/consumers/millions.consumer.ts:39-89 | a withdrawal is forgotten during a run iff an attempt at a job without one read the record before a withdrawal was saved and saves after it |
| DepositOverlaps.WithdrawalCanBeForgotten | src/async/consumers/millions.consumer.ts:39-71 | a run of six steps in which that happens |
| DepositOverlaps.UndisturbedIsAtomic | src/async/consumers/millions.consumer.ts:39-89 | a run in which each attempt saves over the record it read does what its attempts do one after the other |
| DepositOverlaps.UndisturbedKeepsRecords | src/async/consumers/millions.consumer.ts:39-89 | so such a run, however its steps interleave, keeps what RunKeepsRecords says |
| Grouping.GroupAndSumDeposits | src/utils/millions.ts:42-61 | the dictionary loop yields one entry for each depositor in order of first own deposit, with its total |
| Grouping.GroupedAddresses | src/utils/millions.ts:42-61 | the addresses are distinct and are all depositors that are not only sponsors |
| Grouping.GroupingConserves | src/utils/millions.ts:42-61 | the amounts add up to all that was deposited without sponsoring |
| Grouping.GroupingIgnoresOrder | src/utils/millions.ts:42-61 | any order of the same deposits gives the same addresses with the same sums |
| Grouping.SponsorsNeverCount | src/utils/millions.ts:45-57 | a deposit that sponsors changes nothing, wherever it stands |
| Grouping.EveryAmountCounts | src/utils/millions.ts:45-57 | where nobody sponsors, the entries add up to all amounts |
| Grouping.OneDepositor | src/utils/millions.ts:45-57 | the own deposits of a single depositor make one entry with all of it |
| Leaderboard.SortIsStable | src/async/schedulers/millions.scheduler.ts:321 | sorting keeps the entries, puts larger ones first and keeps ties in their order |
| Leaderboard.StableSortUnique | src/async/schedulers/millions.scheduler.ts:321 | every stable sort gives that list, whatever its algorithm |
| Leaderboard.RankingIsLeaderboard | src/async/schedulers/millions.scheduler.ts:317-333 | ranks 1 to n, amounts that do not increase, ties by first appearance, one row for each depositor with its total |
| Leaderboard.RowIdInjective | src/async/schedulers/millions.scheduler.ts:326 | row identifiers of different pools or addresses differ |
| Leaderboard.SyncedShows | src/async/schedulers/millions.scheduler.ts:335-337 | saving the new rows over a table without the pool's old ones leaves exactly the new leaderboard there and the other pools untouched |
| Leaderboard.DepositorService.DeleteByPoolId | src/services/millions-depositor.service.ts:38-40 | afterwards the pool shows no rows and every other pool shows what it did |
| Leaderboard.DepositorService.SaveBulk | src/services/millions-depositor.service.ts:34-36 | upserts the rows in order |
| Paging.CutIffConcat | src/async/schedulers/millions.scheduler.ts:295-315 | however a list is cut into pages, collecting them gives the list and nothing else |
| Leaderboard.SyncPool | src/async/schedulers/millions.scheduler.ts:291-337 | wherever it stops, the pool shows its old leaderboard, nothing, or that of the list its pages are cut from; other pools are untouched |
| Leaderboard.PagingDoesNotMatter | src/async/schedulers/millions.scheduler.ts:295-315 | a pool is up to date with a list whatever the pages it came in |
| Leaderboard.DepositorsSync | src/async/schedulers/millions.scheduler.ts:280-339 | after a run every listed pool shows its new leaderboard and the others are as before; a run that stops within a pool leaves those before it new, that one old, empty or new, and all others as before |
| Leaderboard.Neighbours | src/http/controllers/millions.controller.ts:221-238 | on a synced pool the rows before and after a depositor are its neighbours in the ranking, and none beyond the ends |
| BiggestWinner.AtLeastByCrossProducts | src/services/millions-biggest-winner.service.ts:39 | comparing returns is comparing cross products of prizes and deposits, a prize on no deposits included |
| BiggestWinner.BiggestWinnerService.CreateOrUpdateAccordingToApr | src/services/millions-biggest-winner.service.ts:30-66 | creates the record of an address, leaves it when its return is at least the new one, else takes return, prize, deposits, pool, height, denomination and draw from the new win; no other record changes |
| BiggestWinner.RecordIsChosen | src/services/millions-biggest-winner.service.ts:30-66 | after any history the record has return, prize, deposits, pool, draw, denomination and height of the first entry with the highest return since the last undefined one, and address and creation time of the first |
| BiggestWinner.ChosenUnique | src/services/millions-biggest-winner.service.ts:30-66 | a history has one such entry |
| BiggestWinner.RecordIsHighest | src/services/millions-biggest-winner.service.ts:38-41 | without undefined returns the record has the highest return of the history |
| BiggestWinner.HighestIgnoresOrder | src/services/millions-biggest-winner.service.ts:38-41 | that return does not depend on the order of processing |
| BiggestWinner.NeverLowersIffDefined | src/services/millions-biggest-winner.service.ts:38-41 | an update leaves a defined record at least as high iff the new return is defined; nothing won on nothing deposited replaces any record |
| DrawsSync.IdsInjective | src/async/schedulers/millions.scheduler.ts:154-194 | identifiers of different draws or prizes differ |
| DrawsSync.WinnerSumsByAddress | src/async/schedulers/millions.scheduler.ts:216-231 | each winner's sum is the total of its own prizes in the draw |
| DrawsSync.WinnerSumsConserve | src/async/schedulers/millions.scheduler.ts:216-231 | the sums add up to all prizes of the draw, except for what an empty address loses |
| DrawsSync.NamedWinnersConserve | src/async/schedulers/millions.scheduler.ts:216-231 | so they add up to all prizes when every prize names its winner |
| DrawsSync.SumDepositsBefore | src/async/schedulers/millions.scheduler.ts:238-257 | however the deposits are cut into pages: all that is earlier than the draw and does not sponsor counts; nothing does when all are later or sponsor |
| DrawsSync.LateDepositsNeverCount | src/async/schedulers/millions.scheduler.ts:243-249 | a deposit that sponsors or is not earlier than the draw changes nothing, wherever it stands |
| DrawsSync.WinMeaning | src/async/schedulers/millions.scheduler.ts:221-262 | field by field, the win of a named address: all its prizes in the draw, its deposits before, the return, and where and when |
| DrawsSync.EmptyAddressStartsOver | src/async/schedulers/millions.scheduler.ts:217-231 | what stands for an empty address is the last of its prizes |
| DrawsSync.TwoWeekRule | src/services/millions-draw.service.ts:25-35 | a saved draw of less than thirteen days is read again, one of two weeks is not |
| DrawsSync.PassWritesRows | src/async/schedulers/millions.scheduler.ts:161-214 | field by field, the rows a pass writes for a draw it does not skip and for its prizes |
| DrawsSync.MillionsTables.DrawsSync | src/async/schedulers/millions.scheduler.ts:137-274 | the loops over pools, pages and draws, with the clock read at each draw, change the three tables as Sync says under the two-week rule |
| DrawsSync.FirstPassKeepsBest | src/async/schedulers/millions.scheduler.ts:234-263 | from empty tables, a pass leaves for each address the running maximum over all its wins |
| DrawsSync.FirstWriteWins | src/async/schedulers/millions.scheduler.ts:181-185 | a saved draw row is never written again |
| DrawsSync.PassChangesNothingIff | src/async/schedulers/millions.scheduler.ts:137-274 | from any tables, a pass changes nothing iff each draw is skipped or up to date |
| DrawsSync.SecondPassIff | src/async/schedulers/millions.scheduler.ts:137-274 | whichever draws two passes over an unchanged chain skip, the second changes nothing iff it skips what the first skipped or finds it up to date |
| DrawsSync.SecondPassChangesNothing | src/async/schedulers/millions.scheduler.ts:137-274 | so nothing changes when the second skips at least those draws, and any others |
| DrawsSync.SecondPassByTheClock | src/services/millions-draw.service.ts:25-35 | the two-week rule, with the clock read at each draw and creation kept by day, does that at any later time |
| Pagination.DataResponseMetadata.constructor | src/http/responses/data.response.ts:27-32 | which pages a reply announces, for every limit including zero |
| Pagination.InterceptMeaning | src/http/interceptors/pagination.interceptor.ts:20-22 | which page, limit and skip a request asks for, with what is absent |
| Pagination.HasNextMeaning | src/http/responses/data.response.ts:29-31 | there is a next page iff the next slice starts inside the list |
| Pagination.WalkReassembles | src/http/interceptors/pagination.interceptor.ts:20-28 | following the next pages from the first gives back the list exactly, in max(1, ceil(total/limit)) requests |
| Pagination.ZeroLimitNeverEnds | src/http/responses/data.response.ts:29-31 | with a limit of zero every page of a list that is not empty announces a next one |

## Left out

- The chain, IPFS, Redis and Postgres clients, hashing, bech32 and protobuf decoding, and the parsing of raw logs.
- The content of block and transaction rows other than keys, and the operator address, which depends on the validator table at ingestion time.
- EventFold.FormatTx: the override of the amount for a single MultiSend message, and the conversion of deposit, pool and withdrawal numbers from text.
- CoinString.RoundTripExact: values that are not integers up to 2^53-1 have no result in the model, because their printed form is decided by floating point. Rounding lets the code read a few of them back, such as 1 followed by ".00000000000000000001ulum", so the only-if half leaves out fractions that come from digits in the denomination.
- BiggestWinner.RecordIsChosen: entities with absent fields, which the only caller never passes; returns are exact, without floating point rounding.
- DrawsSync.PassChangesNothingIff: asks for the distinct numbers and the prizes above zero that are assumed of the chain; a zero prize on no deposits has no return to compare.
- DrawsSync.MillionsTables.DrawsSync: the time zone in which days are cut.
- Grouping.GroupAndSumDeposits: keys of the dictionary that look like array indices or like members of every object; addresses are neither.
- Leaderboard.Sort: the library sort is an insertion here; StableSortUnique makes the choice immaterial.
- Ingestion.Apply: priorities, delays and the rate limit of the queue, which only choose among the orders the model allows.
- Ingestion.Init: tables that already hold incomplete blocks; StrandedForEver covers them from any state.
- Negative or unreadable page and limit parameters.
- The governance, validator, market and metric schedulers, the pool sync, and the remaining services and controllers, which upsert or read single rows.
