# cpa-key-policy: verified model

A Dafny model of the parts of the plugin whose mistakes would cost money or
data: the usage ledger with its two files and its hand-over between plugin
instances, and the small algorithms the request path relies on. Everything
here is a statement about all inputs, all runs or all reachable states.

The ledger is described twice. `Ledger.dfy` gives every operation as a function
from one ledger value to the next, and `LedgerMemory.dfy` is the ledger object
itself: fields updated in place, one table of models per key and day, tables
shared with a running history write. Each method of the object is proved
against its function; the theorems are about the functions.

| file | what it models |
|---|---|
| `Calendar.dfy`, `Cycles.dfy` | calendar days of a time zone, quota periods and their roll-forward |
| `Usage.dfy`, `Ledger.dfy`, `LedgerMemory.dfy` | buckets, the ledger as a value, the ledger as an object |
| `Registration.dfy` | retention, registration, deletion, confirmed resets |
| `Flush.dfy`, `FlushClean.dfy`, `FlushHistory.dfy` | the two-file flush with every write outcome and crashes at any point |
| `CycleIndex.dfy`, `CycleDays.dfy` | quota periods as a running index of calls, and against daily history |
| `Quota.dfy`, `Prepaid.dfy` | refusals and their retry time, prepaid money and request ids |
| `Replay.dfy`, `Handoff.dfy`, `HandoffReader.dfy` | replaying the journal, the hand-over protocol, the journal reader |
| `Billing.dfy`, `Prices.dfy`, `MediaTraces.dfy` | token classes and charges, price rows, the media trace set |
| `JsonScan.dfy`, `JsonWalk.dfy`, `JsonText.dfy` | the JSON scanner, the walk over members and elements, RFC 8259 values |
| `Envelope.dfy` | cutting the Body member out of a request |
| `Runes.dfy`, `AdaptText.dfy`, `AdaptDoc.dfy`, `AdaptRules.dfy` | UTF-8, keys as JSON strings, documents, rewrite rules |
| `HourRing.dfy`, `StatusCodes.dfy` | channel statistics by the hour, the failure code table |
| `EventStream.dfy`, `TextLines.dfy` | the model event stream, text as lines |
| `Wildcard.dfy`, `Candy.dfy` | excluded-models patterns, the candy puzzle |

Conventions. Instants, dates and money are integers: a date is a day number, a
watermark is `Never` or `Through(day)`, an amount is in nanodollars. A time zone
is the function from a day to its first instant, and it is strictly increasing.
A file write ends as written, failed without trace, or failed although the new
content landed. What another component decides (JSON decoding of an event, the
clock, whether a write succeeded) is a parameter.

What the proofs found:

- `candyAnswer` is the optimum exactly when the bag holds a wanted pair at all;
  otherwise no draw guarantees one and it returns the size of the bag.
- The comment at internal/policy/money.go:50-54 bounds each priced class by
  1.1e18. A class can reach 2^32 tokens and go above it. The bound holds of a
  record under every price row exactly when its input, cache writes included,
  and its output are each below 2.2 billion tokens; the sum of the four charges
  always fits.
- The comment at internal/policy/balance.go:72-74 promises the amounts of the
  first application to a repeated request. The balances are those; the net
  credited amount is the current one, and the first one exactly when the credits
  since sum to zero.
- A journal that could not be closed (its cut or its rename failed) is billed a
  second time when the instance's own quiesce or shutdown then succeeds: exactly
  the lines at the path that the cut holds.
- A shutdown whose last cut fails gives the files up all the same, and what was
  not saved is lost.
- An older instance that takes the files back regains everything exactly when
  its memory and the lines it still finds at the path are all that was billed.
  After a newer instance billed and shut down cleanly it is not.
- The comment at internal/policy/handoff.go:72-74 says a line is whole or
  absent. An append that fails can leave part of one; the next line is then
  read as its end, and both calls are lost.
- The journal's time is read after the booking (internal/policy/handoff.go:122-128).
  A call booked before midnight and journaled after it is billed on another day
  by the newer instance. On a clock that never goes back a replay differs from
  booking directly exactly when a call gets another date, or a period of its
  key began between its booking and its line. While the call's day is open
  that is exactly when its line is written on a later day.
- A confirmed reset of a period that started at that very instant is accepted
  again when it is repeated on the same day.
- A media generation admitted, taken and admitted again at one clock reading is
  listed twice.
- A key that is not UTF-8 reads back as itself unless it needs an escape.
- A journal line of 2^20 bytes or more makes the reader fail and the whole
  batch it arrived with is dropped.
- A journaled entry whose day retention has passed stays until the next day's
  pass when it is replayed on the day of loading.
- A ledger that is not dirty is held by the files exactly as long as no reset or
  adjustment that failed, but landed all the same, met a clean ledger and
  would have changed the key's periods or balance.
- After a flush that plans nothing or succeeds the history file is exactly the
  past days of the ledger, unless a retention pass ran during an earlier flush
  and dropped a day that flush was writing for the first time: the file keeps
  that day, and the ledger does not know.
- The comment at internal/channel/stats.go:148-150 says the table of failure
  codes keeps the frequent ones. A code shown twice stays, and is exact from
  then on; but once eight codes have been seen twice a ninth is never shown,
  however often it occurs, and this is the only way to be shut out.
- A zeroed ring of hours reports hour 0 as active.

## Model

| member | source | states |
|---|---|---|
| `Calendar.DayIsUnique` | internal/policy/cycle.go:87-101 | an instant lies between a day's first instant and the next day's exactly for the one day it belongs to |
| `Calendar.AfterStart` | internal/policy/cycle.go:87-101 | an instant is at or after a day's start exactly when its day is that day or later |
| `Cycles.AdvanceCycle` | internal/policy/cycle.go:125-141 | the roll-forward loop terminates and yields the closed form: whole periods counted from the old deadline; it reports a change exactly for an expired period |
| `Cycles.AdvanceCycles` | internal/policy/cycle.go:125-141 | the same for the three periods of a key |
| `Cycles.AdvancedHoldsNow` | internal/policy/cycle.go:122-141 | a rolled period is the only interval of whole periods from the old deadline's day that holds now |
| `Cycles.AdvanceInStops` | internal/policy/cycle.go:122-141 | advancing in several stops gives the same period as advancing once |
| `Cycles.AdvancedIsValid` | internal/policy/cycle.go:147-155 | a rolled period passes the load check and has its deadline after now |
| `Cycles.OpenedIsValid` | internal/policy/cycle.go:103-120 | the periods a key opens with pass the load check and have started by then |
| `Cycles.ResetIsValid` | internal/policy/cycle.go:143-145 | a period reset by hand passes the load check |
| `Cycles.AllAdvancedIsValid` | internal/policy/cycle.go:125-174 | rolling all periods keeps them loadable and leaves none expired |
| `Cycles.StartsAtDeadline` | internal/policy/cycle.go:132-137 | a rolled period starts with a day, at its predecessor's deadline or later |
| `Usage.PlusIsSum` | internal/policy/bucket.go:27-45 | adding buckets is commutative and associative, loses nothing and moves nothing between counters, and keeps them nonnegative |
| `Usage.BookingCommutes` | internal/policy/ledger.go:205-207 | the order in which calls are booked into a day or period does not matter |
| `LedgerMemory.UsageLedger.EvictExpired` | internal/policy/ledger.go:143-170 | the in-place retention pass makes the ledger what the pass is defined to make of it and writes no table |
| `LedgerMemory.DropExpired` | internal/policy/ledger.go:150-165 | the loop over keys and days keeps exactly what retention keeps and says what it dropped |
| `LedgerMemory.UsageLedger.BookDay` | internal/policy/ledger.go:199-207 | booking writes one open day's table, and the view changes on that key and day alone |
| `LedgerMemory.UsageLedger.Record` | internal/policy/ledger.go:175-210 | one billed call: periods, balance, day, retention, dirty and revision; closed tables stay out of reach |
| `LedgerMemory.UsageLedger.RecordJournaled` | internal/policy/handoff.go:302-343 | the same for a journaled call, booked as of when it was billed |
| `LedgerMemory.BillDuringWrite` | internal/policy/ledger.go:59-62 | while a history write runs, any sequence of billed and journaled calls leaves every table it shares as planned, and they stay out of reach |
| `LedgerMemory.FlushWhileBilling` | internal/policy/store.go:453-494 | a whole flush with calls booked while its files are written: what is written is what was planned, and the calls are in the ledger |
| `LedgerMemory.UsageLedger.OpenCycles` | internal/policy/ledger.go:243-267 | opens a key's periods at its creation and rolls them forward |
| `LedgerMemory.UsageLedger.CurrentCycles` | internal/policy/ledger.go:320-328 | looking at a key rolls its periods forward and marks that as a change |
| `LedgerMemory.UsageLedger.SyncCycles` | internal/policy/ledger.go:273-292 | registers every known key and forgets every other |
| `LedgerMemory.UsageLedger.ForgetKey` | internal/policy/ledger.go:296-316 | drops a key's periods and balance, and the key with no days left |
| `LedgerMemory.UsageLedger.Load` | internal/policy/ledger.go:105-119 | loading clones a dataset into tables of its own and runs a retention pass |
| `LedgerMemory.UsageLedger.HasDays` | internal/policy/ledger.go:737-746 | finds exactly whether a key has a non-empty day in the range |
| `LedgerMemory.UsageLedger.LiveCopy` | internal/policy/ledger.go:749-764 | copies the periods, balances and days after the watermark |
| `LedgerMemory.UsageLedger.ShareHistory` | internal/policy/ledger.go:768-785 | shares exactly the closed, non-empty tables |
| `LedgerMemory.UsageLedger.TakePlan` | internal/policy/ledger.go:710-735 | the plan of a flush, with shared tables that no later booking can reach |
| `LedgerMemory.UsageLedger.NoteFlushed` | internal/policy/ledger.go:791-803 | what the ledger knows once the writes ended |
| `LedgerMemory.UsageLedger.Persist` | internal/policy/ledger.go:534-545 | a change written under the lock: the file holds it, and a failed write restores entries, dirty and revision |
| `LedgerMemory.UsageLedger.ResetWindowAndPersist` | internal/policy/ledger.go:510-546 | a reset by hand, refused for an unknown key or a stale confirmation |
| `LedgerMemory.UsageLedger.AdjustBalanceAndPersist` | internal/policy/balance.go:153-200 | an adjustment, its answer, and the file it writes |
| `Ledger.NeverClosed` | internal/policy/ledger.go:215-220 | no booking goes to a closed day |
| `Ledger.FirstOpenIsLeast` | internal/policy/ledger.go:212-220 | a record on a closed day goes to the first day that is not |
| `Ledger.LoadsIff` | internal/policy/persistence.go:148-186 | the files load exactly when no day the live file left to the history is missing from it |
| `Registration.EvictedIsExact` | internal/policy/ledger.go:143-170 | a pass drops exactly the days before the last 90 and the keys nothing is left of, and marks the history stale exactly when it holds a dropped day |
| `Registration.EvictedOnceADay` | internal/policy/ledger.go:144-147 | a second pass on the same day changes nothing |
| `Registration.SyncedIsExact` | internal/policy/ledger.go:269-292 | after a sync every known key has its own periods rolled forward or new ones from its creation, no other key keeps periods or money, and no day changes |
| `Registration.ForgottenIsExact` | internal/policy/ledger.go:294-316 | deleting a key drops its periods and money and nothing else |
| `Registration.RecreatedStartsOver` | internal/policy/ledger.go:53-57 | a key recreated under a deleted id starts its own periods without money |
| `Registration.ConfirmedResetOnce` | internal/policy/ledger.go:495-527 | a repeated confirmation is accepted exactly when the period was reset at the instant it had started and the day is the same; otherwise one confirmation resets once |
| `Registration.ResetIff` | internal/policy/ledger.go:504-546 | a reset goes through exactly for a key with periods whose rolled period is the confirmed one, if any was confirmed; that period alone starts over now |
| `Flush.ClosedDaysStay` | internal/policy/ledger.go:59-62 | no work on the ledger changes a closed day that retention keeps, or a watermark |
| `Flush.StepKeepsInv` | internal/policy/store.go:453-494 | every step, with every write outcome, keeps the watermarks in order and the files in agreement with memory and the last cut |
| `Flush.MergeSucceeds` | internal/policy/persistence.go:177-205 | in every such state the two files merge, up to the history file's watermark |
| `Flush.CrashRecovery` | internal/policy/persistence.go:148-205 | loading gives every retained day up to the history watermark as memory had it, every later one as the last landed cut had it, and that cut's periods and balances |
| `Flush.EveryRunIsSafe` | internal/policy/ledger.go:710-803 | the invariant holds in every world of every run from a first boot |
| `Flush.EveryCrashRecovers` | internal/policy/store.go:208-213 | wherever a run crashes, a restart is refused exactly when the history watermark is ahead of the clock, and otherwise recovers days, periods and balances |
| `Flush.CleanFlushSavesAll` | internal/policy/store.go:449-494 | a flush whose writes succeed saves the days, periods and balances it planned and leaves the ledger clean |
| `Flush.WrittenDatasetLoads` | internal/policy/persistence.go:335-386 | a dataset written from scratch loads back with its days, periods and balances, for everything retention keeps |
| `FlushClean.EveryRunIsClean` | internal/policy/ledger.go:787-803 | over a run from a first boot every ledger that is not dirty is held by the files exactly when every failed change that landed met a dirty ledger or would have changed nothing |
| `FlushClean.StepIsCleanIff` | internal/policy/ledger.go:534-545 | any one step keeps that meaning of the dirty flag exactly under this condition |
| `FlushClean.FailedResetIff` | internal/policy/ledger.go:534-545 | a failed reset whose content landed keeps it exactly when nothing was written, the ledger was dirty before or the period is the same |
| `FlushClean.FailedAdjustIff` | internal/policy/balance.go:188-195 | a failed adjustment whose content landed keeps it exactly when nothing was written, the ledger was dirty before or the balance is the same; of an amount other than zero the last never holds |
| `FlushClean.CleanCrashLosesNothing` | internal/policy/ledger.go:787-803 | a crash while nothing is dirty loses no retained day, period or balance, in every run with only such failures up to there |
| `FlushClean.LandedFailureDiffers` | internal/policy/balance.go:188-195 | the input: an adjustment that failed but landed leaves a clean ledger whose files hold another balance |
| `FlushHistory.HistoryIsPast` | internal/policy/ledger.go:710-803 | after any flush of any run that plans nothing or whose writes succeed, whatever failed before, nothing is left to write and the history file holds exactly the past days of the ledger: a closed day has reached it, a dropped one has left it |
| `FlushHistory.LiveIsRest` | internal/policy/store.go:449-494 | the live file of a successful flush holds exactly the other days, and every key's periods and balance |
| `FlushHistory.FailedHistoryWrite` | internal/policy/ledger.go:787-803 | after a failed history write, landed or not, the live file still has those days and the ledger knows to write them again |
| `FlushHistory.StepIsHonestIff` | internal/policy/ledger.go:143-170 | any one step keeps the history file what the ledger takes it for exactly when it does not drop a day being written to it for the first time |
| `FlushHistory.EveryRunIsHonest` | internal/policy/ledger.go:710-803 | and so over every run |
| `FlushHistory.LatePassLeavesDay` | internal/policy/ledger.go:143-170 | the case it leaves: a pass that drops such a day during the flush leaves it in the file |
| `CycleIndex.StepCycles` | internal/policy/ledger.go:175-191 | what every step of an instance that knows the key makes of its periods, journaled calls, registrations and deletions of others included |
| `CycleIndex.PeriodsAreSums` | internal/policy/ledger.go:175-210 | over every run of calls, journaled calls, registrations, flushes, resets and adjustments on a clock that never goes back, each period's buckets are the sums of the calls made since it started and since its last reset by hand |
| `CycleDays.CountIsDaySum` | internal/policy/ledger.go:199-207 | counting calls from a period's start is summing day buckets from its first day |
| `CycleDays.PeriodIsDaySum` | internal/policy/ledger.go:318-328 | a fresh key's period is the sum of its day buckets from the period's first day to today, for every model |
| `CycleDays.PeriodsAreDaySums` | internal/policy/ledger.go:175-210 | at every point of every such run that never resets the key by hand and books its journaled calls on their own day, each period is for every model the sum of its day buckets |
| `Quota.UsedGrows` | internal/policy/cycle.go:75-81 | a billed call adds its charge to what the period used |
| `Quota.SumUsed` | internal/policy/cycle.go:75-81 | the loop adds up the charges of all models |
| `Quota.Deny` | internal/policy/ledger.go:470-480 | the loop over the periods names the exhausted one with the latest deadline |
| `Quota.QuotaDenial` | internal/policy/ledger.go:463-481 | the refusal of a key, prepaid ones by their balance, and that asking only evicts and rolls forward |
| `Quota.DeniedIffSpent` | internal/policy/ledger.go:391-422 | refused exactly when some limited period used its limit; the retry time is the latest deadline of those |
| `Quota.DeniedIffCharged` | internal/policy/ledger.go:391-481 | over every run a key is refused exactly when the calls since the start of its day, week or month cost its limit for it or more |
| `Quota.DenialIsTight` | internal/policy/ledger.go:460-481 | left alone, a refused key is refused at every instant before the retry time and admitted at every one from it on |
| `Quota.AdmittedStays` | internal/policy/ledger.go:460-481 | an admitted key stays admitted until something is billed |
| `Quota.DenialIsTightOverRun` | internal/policy/ledger.go:460-481 | over every run that does not bill or reset the key, whatever else happens, a key is refused exactly if it was and the retry time has not come |
| `Quota.PrepaidDenial` | internal/policy/balance.go:202-211 | over every run a prepaid key is refused exactly when its credits do not exceed its charges, whatever the time |
| `Quota.OverdrawnIsRefused` | internal/policy/balance.go:202-211 | the input: a credit of 3 and a call of 8, refused until more than 5 is credited |
| `Prepaid.StepBalance` | internal/policy/balance.go:14-24 | in a running instance only billed calls, written adjustments and deletion move a balance |
| `Prepaid.EveryRunIsAccounted` | internal/policy/balance.go:14-24 | over every run, with failing writes, restarts, deletions and keys known again, net credited minus balance is what was deducted, and the request ids kept are the latest 64 applied, each once |
| `Prepaid.AppliedIffNew` | internal/policy/balance.go:165-178 | a request id is applied exactly when it is not among those kept; anything else changes nothing |
| `Prepaid.ReplyIsTrue` | internal/policy/balance.go:153-200 | the answer tells the balance before and after and the sum of credits as the ledger has them, and failures and refusals as such |
| `Prepaid.RetryAnswersAlike` | internal/policy/balance.go:26-33 | a retry of a kept request gets the first balances before and after, the net credited as it is now, and changes nothing |
| `Prepaid.RetryOverRun` | internal/policy/balance.go:165-178 | over every run: while a credit is not lost and fewer than 64 requests came after it, its retry gets its first balances, changes nothing, and reports the first net credited exactly when the credits since sum to zero |
| `Prepaid.RetryReportsLaterCredits` | internal/policy/balance.go:72-74 | the input: a credit of 5 retried after a credit of 7 reports 12 |
| `Prepaid.FailedLeavesNoTrace` | internal/policy/balance.go:188-195 | a failed write leaves balance, dirty flag and revision as they were |
| `Prepaid.KeptAmongLatest` | internal/policy/balance.go:183-186 | an applied id is kept until 64 later ones were applied |
| `Replay.BookThenRoll` | internal/policy/handoff.go:314-324 | booking into a period and rolling it forward is rolling it forward and booking as of the journaled time, exactly unless the period under way began in between |
| `Replay.UntimedIsNow` | internal/policy/handoff.go:301-313 | an entry without a time, or ahead of the clock, is booked like a call made now |
| `Replay.CallAgrees` | internal/policy/handoff.go:295-343 | one call booked directly and replayed later leave ledgers that agree if its line is faithful: the same date on both sides and no period of the key begun in between; for a call that counts on a retained day, exactly then |
| `Replay.ReplayEqualsDirect` | internal/policy/handoff.go:295-343 | replaying a journal gives the periods, balances and retained days of booking directly, across period and day boundaries and closed days, exactly when every line is faithful |
| `Replay.FaithfulIffOnItsDay` | internal/policy/handoff.go:122-128 | of a call whose day is open on both sides the line is faithful exactly when it was written on that day |
| `Replay.MidnightCallDiffers` | internal/policy/handoff.go:122-128 | a call billed in the last second of a day whose line is written in the next one lands on another day |
| `Replay.SavedLoadsSame` | internal/policy/persistence.go:177-205 | loading what a clean ledger saved gives a ledger that agrees with it |
| `Replay.HandoverEqualsDirect` | internal/policy/handoff.go:155-233 | cut, load and replay give the newer instance what the older one kept in memory, exactly when every line is faithful |
| `Replay.PastRetention` | internal/policy/handoff.go:332-341 | what becomes of an entry older than retention: gone at once, or kept when the day's pass already ran |
| `Handoff.EveryHandoverIsExact` | internal/policy/handoff.go:18-33 | over every run of exact steps of any number of instances, whatever else fails, the memory of the one owner with the journal still unread holds every billed call exactly once |
| `Handoff.StepKeepsInv` | internal/plugin/app.go:308-463 | every step, whatever write, append, read, rename or removal fails and wherever an instance crashes, keeps one owner at most and the account of lost and doubled calls |
| `Handoff.EveryRunIsAccounted` | internal/plugin/app.go:308-463 | over every run, what the owner or the files account for is everything billed, less the calls known to be lost, plus those counted twice |
| `Handoff.StepIsExactIff` | internal/policy/handoff.go:155-395 | the condition before each step under which it loses no call and counts none again, and that it is exactly that; of a rollback, under which nothing is lost or doubled after it |
| `Handoff.BillByOther` | internal/policy/handoff.go:100-132 | a late call of an instance that gave the files up reaches the owner or the next instance exactly when its line lands whole in a journal that is heard |
| `Handoff.TornLineLosesBoth` | internal/policy/handoff.go:72-74 | after an append that left part of a line the next call is lost with it, and the one after that is not |
| `Handoff.QuiesceIsExactIff` | internal/policy/handoff.go:155-182 | a quiesce loses nothing and counts again exactly the lines at the path that its cut holds |
| `Handoff.ShutdownIsExactIff` | internal/policy/store.go:540-551 | a shutdown gives the files up whatever its last cut came to: what is lost and what is counted again, and that with the cut written it is exact only with no line of it at the path |
| `Handoff.CrashOutsideWindow` | internal/policy/handoff.go:29-33 | outside the window between a cut and the rename a crash counts no call twice and loses exactly the unsaved ones |
| `Handoff.WindowOpens` | internal/policy/handoff.go:238-248 | only a cut that saves lines of a journal still at the path opens that window, or a rollback |
| `Handoff.CloseSaves` | internal/policy/handoff.go:235-248 | closing a journal saves what was replayed: a crash right after it loses only what is unread, and the next instance finds the rest |
| `Handoff.SavedStays` | internal/policy/handoff.go:235-248 | what a close, a flush, a quiesce or a shutdown wrote is in the files and in the owner's memory at every later point of every run without a rollback |
| `Handoff.GoneAreSilent` | internal/policy/handoff.go:113-120 | an instance that stopped journals nothing more, and one that crashed bills nothing more |
| `Handoff.UnclosedJournalDoubles` | internal/policy/handoff.go:238-248 | otherwise the next instance holds every line of that journal twice |
| `Handoff.UnclosedJournalHappens` | internal/policy/handoff.go:238-248 | a run of eight steps from an unused directory that gets there through a failed rename |
| `Handoff.RollbackKeeps` | internal/policy/handoff.go:188-199 | a rollback, with its journal removed or not, keeps the accounts balanced |
| `Handoff.RollbackRestores` | internal/policy/handoff.go:188-199 | an instance that alone billed since it quiesced has everything again, whether or not its journal can be removed |
| `Handoff.RollbackIsExactIff` | internal/policy/handoff.go:188-199 | a rollback leaves nothing lost or doubled exactly when the older instance's memory and what it still finds at the path are all that was billed |
| `Handoff.LateRollbackLoses` | internal/plugin/app.go:308-463 | a run of eight exact steps after which an older instance, taking the files back, loses what the newer one billed |
| `Handoff.ReadToTheEnd` | internal/policy/handoff.go:350-395 | once the journal is read to its end memory is all that was billed |
| `HandoffReader.Reader.Next` | internal/policy/handoff.go:414-438 | a read yields the entries of the lines ended since the last one and keeps the open line; it fails exactly when one of them does not fit the buffer |
| `HandoffReader.ReadAll` | internal/policy/handoff.go:408-438 | for any chunking the entries are those of every whole line, once and in order; it fails exactly when a whole line has 2^20 bytes or more |
| `HandoffReader.Scan` | internal/policy/handoff.go:426-437 | the line loop decodes the lines up to one that does not fit and skips malformed ones |
| `HandoffReader.ReturnIsIgnored` | internal/policy/handoff.go:426-437 | a carriage return before the line break is not part of the line |
| `HandoffReader.Continued` | internal/policy/handoff.go:419-425 | the open line and what follows it give exactly the further lines |
| `HandoffReader.TornLineMerges` | internal/policy/handoff.go:72-74 | part of a line and the line appended next are read as one line; nothing comes of either exactly when the decoder makes nothing of it |
| `Billing.SanitizeDetail` | internal/policy/billing.go:178-196 | the loops leave every billed count in range or reject the record, and say whether anything was changed |
| `Billing.CleanIs` | internal/policy/billing.go:172-196 | plausible counts stay, negative ones and absurd unbilled ones become zero, and a record is rejected exactly when that leaves an absurd count |
| `Billing.SplitPartitions` | internal/policy/billing.go:238-264 | the classes are disjoint parts of what was reported, and input with cache tokens does not depend on a write price |
| `Billing.SplitIs` | internal/policy/billing.go:238-264 | the split is the one way to class the tokens: reasoning on top of the output where the provider or the total says so, cache tokens inside the input as far as it reaches, or beside it |
| `Billing.ChargeIsExact` | internal/policy/billing.go:282-304 | the charge is within 2 nanodollars of the counts at their own prices times the multiplier, and each cache cost within half of its own |
| `Billing.ChargeFitsInt64` | internal/policy/billing.go:282-304 | the four rounded charges of any sane record and normalized row sum below 2^63, and the cache amounts never exceed the charge |
| `Billing.ClassAboveCommentedBound` | internal/policy/money.go:50-57 | a concrete record whose one class is charged more than 1.1e18 |
| `Billing.CommentHoldsIff` | internal/policy/money.go:50-57 | every class of a record stays below that bound under every price row exactly when input, with cache writes folded in, and output are each below 2.2 billion tokens |
| `Billing.ListCostBelowCharge` | internal/policy/billing.go:140-170 | the list cost never exceeds the charge |
| `Billing.RecordedBucketIsSound` | internal/policy/billing.go:105-131 | every bucket a record books is nonnegative and within int64, unpriced and free exactly without a list cost, and otherwise at least its list cost |
| `Billing.RecordedIff` | internal/policy/billing.go:55-131 | exactly which events are recorded, and that a call is charged its tokens or the price of one call |
| `Billing.ListCostIsExact` | internal/policy/billing.go:133-170 | the list cost is within 2 nanodollars of the counts at list price, or the price of one call |
| `Billing.UnpricedIff` | internal/policy/price.go:40-48 | a row is unpriced exactly when no counts cost anything under it |
| `Billing.ShapeAgreesWithBilling` | internal/policy/billing.go:266-278 | the shape of a call counts the same tokens billing does |
| `Prices.NormalizeModelPrices` | internal/policy/price.go:75-117 | the rows are canonical in place and indexed; refused exactly when a row is faulty, with its error |
| `Prices.CanonicalIff` | internal/policy/price.go:75-117 | exactly which rows are accepted, and that an accepted one keeps its prices |
| `Prices.ProviderIs` | internal/policy/price.go:63-67 | a provider is named by what is left without the prefix of a compatible one |
| `Prices.SameKeyIff` | internal/policy/price.go:69-71 | two rows are for the same model exactly when their names, but for case and space, and their providers agree |
| `Prices.Table.LookupIsExact` | internal/policy/price.go:131-144 | a lookup gives the qualified row if there is one and else the unqualified one, and nothing else |
| `MediaTraces.MediaTraceSet.Take` | internal/policy/billing.go:393-402 | taken exactly when the id was remembered within the hour and not taken since |
| `MediaTraces.MediaTraceSet.Remember` | internal/policy/billing.go:336-353 | the id is fresh afterwards, the oldest make room, at most 4096 are kept, and the queue gets two equal entries exactly when the id was admitted at this clock reading and taken since |
| `MediaTraces.MediaTraceSet.RememberAt` | internal/policy/billing.go:357-367 | an adopted id is added in order of time unless it expired |
| `MediaTraces.MediaTraceSet.Live` | internal/policy/billing.go:370-381 | lists the live ids oldest first, each once exactly when none is queued twice |
| `MediaTraces.ListedTwice` | internal/policy/billing.go:370-381 | an id admitted, taken and admitted again at one clock reading is listed twice |
| `MediaTraces.MediaTraceSet.Trim` | internal/policy/billing.go:404-415 | drops exactly the expired ids |
| `MediaTraces.Run` | internal/policy/billing.go:105-114 | over whole runs each admission allows at most one per-call charge, while there is room a call is charged exactly when its id is in the expiring map, and without adopted ids at most 4096 are kept |
| `JsonScan.SkipString` | internal/jsonscan/jsonscan.go:108-137 | the quote-to-quote scanner returns what reading byte by byte returns, looking at no more than twice the bytes it crosses |
| `JsonScan.SkipValue` | internal/jsonscan/jsonscan.go:139-181 | the end of the value as the byte-wise reader finds it |
| `JsonScan.SkipSpace` | internal/jsonscan/jsonscan.go:95-106 | the first position that holds no space |
| `JsonScan.SpaceAtIsFirst` | internal/jsonscan/jsonscan.go:95-106 | everything crossed is space and what is reached is not |
| `JsonScan.CrossedIsCrossable` | internal/jsonscan/jsonscan.go:139-181 | a crossed value is crossed to the same end wherever it stands |
| `JsonWalk.VisitMembers` | internal/jsonscan/jsonscan.go:18-59 | the loop visits what the member reader defines, until the visitor refuses |
| `JsonWalk.MembersAreExact` | internal/jsonscan/jsonscan.go:16-59 | every member of an object is visited once, in order, with its exact key and span |
| `JsonWalk.SeenValues` | internal/jsonscan/jsonscan.go:16-59 | the visited span of each member is its value |
| `JsonWalk.VisitElements` | internal/jsonscan/jsonscan.go:63-93 | the loop visits what the element reader defines |
| `JsonWalk.ElementsAreExact` | internal/jsonscan/jsonscan.go:61-93 | every element of an array is visited once, in order, with its exact span |
| `JsonText.EveryValueIsCrossed` | internal/jsonscan/jsonscan.go:139-181 | every value of RFC 8259 sections 2 to 7 is crossed to its exact end, on its own and inside brackets |
| `JsonText.EveryObjectIsWalked` | internal/jsonscan/jsonscan.go:18-59 | every well-formed object is walked exactly: keys, values, order |
| `Envelope.SplitBody` | internal/plugin/envelope.go:39-100 | the loop computes the split its definition gives |
| `Envelope.SplitRemovesTheBody` | internal/plugin/envelope.go:34-100 | the first Body's exact value and the object of the other members, wherever it stands; the request itself without one |
| `Envelope.WithoutKeepsTheRest` | internal/plugin/envelope.go:77-84 | leaving one member out leaves every other key and value, in order |
| `Envelope.SplitOfAnyObject` | internal/plugin/envelope.go:34-100 | the same for every object of the grammar |
| `AdaptText.AppendString` | internal/adapt/adapt.go:429-444 | the loop writes the escaped key between quotes |
| `AdaptText.UnquoteKey` | internal/adapt/adapt.go:461-480 | the short way and the decoder, with the check for control characters and the repair of bytes that are not UTF-8 |
| `AdaptText.PlainDecoded` | internal/adapt/adapt.go:464-472 | on text without escapes the short way agrees with the decoder exactly when it is UTF-8 |
| `AdaptText.KeyRoundTrip` | internal/adapt/adapt.go:429-480 | a written key can be read, and reads back as itself exactly when it is UTF-8 or needs no escape |
| `AdaptText.TextDecoded` | internal/adapt/adapt.go:473-479 | the decoder reads every string of the grammar as what it stands for, surrogate pairs included |
| `AdaptText.KeyIsRead` | internal/adapt/adapt.go:458-480 | every key of the grammar is read, as UTF-8 as what it stands for |
| `AdaptDoc.KeysAreSorted` | internal/adapt/adapt.go:411 | every key once, in increasing order |
| `AdaptDoc.EncodeObject` | internal/adapt/adapt.go:408-427 | the loop prints the object of the sorted members |
| `AdaptDoc.DecodeObject` | internal/adapt/adapt.go:388-406 | decodes exactly one object with nothing but space around it |
| `AdaptDoc.DecodedIsLast` | internal/adapt/adapt.go:388-406 | any object of the grammar decodes to the exact bytes of the last value of every key |
| `AdaptDoc.RoundTrip` | internal/adapt/adapt.go:388-444 | reading undoes printing exactly when every key is UTF-8 or needs no escape |
| `AdaptRules.ImageUrlOf` | internal/adapt/adapt.go:237-275 | the URL of an image element as UrlIs characterises it, or that it cannot be read |
| `AdaptRules.JoinArray` | internal/adapt/adapt.go:289-303 | joins the values as a JSON array |
| `AdaptRules.Document.MoveEditImages` | internal/adapt/adapt.go:201-235 | the document after moving the images, and whether it changed |
| `AdaptRules.Document.ApplyAction` | internal/adapt/adapt.go:180-199 | the document after one rule, and whether it changed |
| `AdaptRules.ApplyTouchesItsFields` | internal/adapt/adapt.go:180-199 | a rule changes nothing but the fields it names, sets or deletes what it says, and reports a change exactly when there is one |
| `AdaptRules.UrlIs` | internal/adapt/adapt.go:232-275 | of any value of the grammar: a string is its own URL unless empty; in an object image_url comes first, nested under url or not, and a bare url last |
| `AdaptRules.ImagesMove` | internal/adapt/adapt.go:197-235 | for images of any value: without image, an array that holds URLs makes image the one URL or the array of all in order, and images goes; otherwise nothing changes |
| `AdaptRules.Book.Match` | internal/adapt/adapt.go:332-345 | found exactly when an enabled rule of the channel names the path |
| `AdaptRules.Book.Apply` | internal/adapt/adapt.go:347-370 | the rules that name the path run in order on the decoded body |
| `AdaptRules.RulesRunInOrder` | internal/adapt/adapt.go:347-370 | rules run one after another on what the ones before made of the body, and are told in that order |
| `AdaptRules.OneRuleRuns` | internal/adapt/adapt.go:347-370 | a rule runs exactly on the paths it names and is told exactly when it changed the body |
| `AdaptRules.ApplyIsFaithful` | internal/adapt/adapt.go:347-370 | on any object of the grammar the rewritten body reads back as what the rules made of it, and every member no rule named keeps its exact bytes |
| `HourRing.ChannelStats.Observe` | internal/channel/stats.go:438-540 | one record counts in its hour and nowhere else; ignored records change nothing |
| `HourRing.ChannelStats.CountedStart` | internal/channel/stats.go:247-261 | recognizes exactly the recently counted starts |
| `HourRing.ChannelStats.Collect` | internal/channel/stats.go:293-299 | for every span inside the week the sums over all accepted observations of its hours |
| `HourRing.ChannelStats.Active` | internal/channel/stats.go:283-291 | active exactly when an observation was accepted in the span, but for hour 0 of a zeroed ring |
| `HourRing.SumByHours` | internal/channel/stats.go:293-299 | the sum over a span is the sum over its hours |
| `HourRing.SumIs` | internal/channel/stats.go:438-540 | a sum counts every failure and every success of a new executor call, the failures, the reported tokens and cost, and the latest time |
| `HourRing.SamplesAre` | internal/channel/stats.go:41-64 | up to each bound a sum's histograms hold as many samples as there were measured successes within it |
| `HourRing.Registry.EvictIdle` | internal/channel/stats.go:828-861 | drops exactly the listed channels without metadata that are idle all week, none with an observation inside the window |
| `HourRing.HourNeverOverstates` | internal/channel/stats.go:148-173 | an hour never shows more failures under a code than it had, and exactly as many with up to eight codes |
| `StatusCodes.Count` | internal/channel/stats.go:151-173 | the table after counting one failure |
| `StatusCodes.NeverOverstated` | internal/channel/stats.go:148-150 | no code is ever shown more often than it occurred |
| `StatusCodes.ExactForFewCodes` | internal/channel/stats.go:148-150 | with at most eight codes every count is exact |
| `StatusCodes.ShownTwiceStays` | internal/channel/stats.go:148-150 | a code shown twice stays and every further failure of it is counted |
| `StatusCodes.NeverShownIff` | internal/channel/stats.go:148-150 | a code is never shown again, however often it fails, exactly when it is not shown and every entry was seen twice |
| `StatusCodes.NinthIsNeverShown` | internal/channel/stats.go:148-150 | after eight codes each seen at least twice a ninth is never shown |
| `EventStream.EventBuffer.Add` | internal/quality/model.go:173-187 | after any chunk the buffer holds the relevant lines of the joined stream |
| `EventStream.EventBuffer.Events` | internal/quality/model.go:206-209 | exactly the relevant lines of the joined stream, in order |
| `EventStream.ParseResponseEvents` | internal/quality/model.go:110-149 | the loop over lines computes the parse its definition gives |
| `EventStream.ParseIs` | internal/quality/model.go:110-149 | what comes of any stream, said of its lines: the first error event or undecodable final response ends it, without a final one it was cut off, and otherwise the final responses decoded in order are the answer, with the streamed items where it has no output |
| `EventStream.TrimSplits` | internal/quality/model.go:114 | trimming a line takes the white space at both ends and nothing else |
| `EventStream.DataIs` | internal/quality/model.go:114-117 | the payload is what follows the field name on the trimmed line |
| `EventStream.StartsFieldIff` | internal/quality/model.go:151-164 | a chunk starts a field exactly with one of the five names after spaces and tabs |
| `EventStream.FieldStartsLine` | internal/quality/model.go:151-187 | such a chunk starts a line, any other goes on with the open one |
| `EventStream.FilteringKeepsTheResult` | internal/quality/model.go:110-149 | parsing the kept lines gives the result or error of the whole stream |
| `EventStream.ReadStream` | internal/quality/model.go:151-209 | for every chunk sequence the streaming filter and the parser together equal the batch parse |
| `Wildcard.ModelExcluded` | internal/channel/cpaconfig.go:311-341 | excluded exactly when the trimmed, lowered value matches the pattern with any text at each star |
| `Wildcard.NormalizeIff` | internal/channel/cpaconfig.go:311-319 | two texts are the same to the matcher exactly when they differ in letter case and surrounding space only |
| `Wildcard.TrimIs` | internal/channel/cpaconfig.go:311-319 | trimming takes the space at both ends and nothing else |
| `Wildcard.LeftmostPlaceLosesNothing` | internal/channel/cpaconfig.go:333-339 | the leftmost place of a segment never misses a match |
| `Wildcard.MatchesIffPartsMatch` | internal/channel/cpaconfig.go:320-340 | matching is cutting the value into the literal parts |
| `Candy.GuaranteesIffInequalities` | internal/quality/candyvariant.go:43-49 | the four inequalities hold exactly when every draw contains a wanted pair |
| `Candy.CandyAnswer` | internal/quality/candyvariant.go:50-63 | the answer is the least guaranteeing draw exactly when a wanted pair exists |
| `Candy.UnsolvableHasNoGuarantee` | internal/quality/candyvariant.go:50-63 | without one no draw guarantees it |
| `Candy.CandyTraps` | internal/quality/candyvariant.go:69-75 | the blind value is one above the size of the largest draw that holds neither pair |
| `Candy.AnswerBelowTraps` | internal/quality/candyvariant.go:65-75 | the answer never exceeds a trap |

## Left out

- Files as bytes: atomic replacement, temporary files, fsync, JSON decoding and the dataset id, version and date checks of internal/policy/persistence.go; a file is its content and a write one of three outcomes.
- The hand-over model counts calls; what booking them yields is the subject of the replay theorems. Media traces and the entries of other modules in the journal are not counted. A cut that fails leaves each call in the files as it was or as in memory.
- Host behaviour: which instance CPA calls, and when; the hand-over model allows any order its locks allow.
- Time zones: daylight saving gaps and zone data; a zone is any strictly increasing sequence of day starts. A zero start time of a period is not told apart.
- Floating point: limits and balances are integer nanodollars; the float comparisons of summaries, the soft limit warning and the dollar figures of reports are not modelled.
- Quota.Deny: used and limit are compared in exact nanodollars, where the program converts both to float64 dollars and back.
- Billing.ChargeFitsInt64: prices and multipliers are exact reals where the program has float64 products.
- Billing.ListCostBelowCharge: the same.
- Billing.RecordedBucketIsSound: the same, and whether the key is known, and how a provider and its executor report tokens, are parameters.
- Prices.NormalizeModelPrices: not-a-number and infinite prices, which the program refuses like any price out of range, have no counterpart among the reals.
- Fixed width: ledger sums, revisions and the histogram counters are unbounded; only the charge of one record is bounded against int64.
- Wildcard.ModelExcluded: lower-casing covers ASCII; trimming covers all white space.
- HourRing.ChannelStats.Observe: the share by model, the recent error ring and journaling for a newer instance are not part of this model.
- Channel statistics: quantiles, files and management metadata.
- Flush.EveryCrashRecovers: the last landed cut, not memory, is what later days, periods and balances return to, as the source promises.
- Reports, CSV export, status texts and the audit log: they format what the ledger holds and keep no state of their own.
- Price import, key management, routes, the web interface and request rejection bodies: field-by-field copying and table look-ups.
- Detection tests, search routing and probes: they depend on the network, on randomness and on floating-point statistics.
- Goroutines: a section under a lock is one step.
