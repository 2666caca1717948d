# Verification of the evidence algorithms

A Dafny model of the algorithms by which this repository turns received messages, ledgers and samples
into evidence, with proofs of what those algorithms promise. `dafny verify dfyconfig.toml` checks all of
it. Inputs are the messages, rows, ledger entries and clock readings a script has received; what a
method returns or changes is stated by a function of its inputs, and the theorems are about that function.

## The models

- **Price levels and the Binance depth book** (`PriceLevels`, `DepthBook`, `DepthTheorems`, `DepthReports`). A book
  object whose sides and last update ID change level by level, the loop that discards, straddles and
  continues update ID ranges, and the report. An event is checked for crossing after it was written, so
  a failed one leaves a partly changed book; the theorems are about messages that return normally.
- **The Coinbase level-2 reducer** (`Level2Book`, `Level2Reports`). The live loop that goes on after bad messages, the
  replay that stops at the first, and their comparison.
- **The crash-recoverable outcome linker** (`Coordinator`, `OutcomeLinker`, `LinkerSystem`,
  `LinkerSafety`, `LinkerTheorems`, `LinkerEffects`, `LinkerRecovery`, `LinkerRestart`). A pass is given twice: as the
  loop over entries that mutates coordinator and links, and as a machine that makes one durable write at
  a time, with steps of its own for the reads that others can overtake; the loop refines the machine. The
  machine runs among the processes that append predictions, attest durability, account for their own
  predictions, admit bars and latch the generation, with a crash possible after every step.
- **The hash-chained resource log** (`ResourceLog`, `ResourceMonitor`, `ResourceAudit`,
  `ResourceReadings`). The producer, the auditor, and the round trip between them. The digest is an
  arbitrary function; where uniqueness depends on it, the theorem gives equality or exhibits the collision.
- **Sequence accounting** (`SequenceGaps`), **the nearest-rank percentile** (`Percentile`) and **the
  revision history scan** (`RevisionTiming`, `RevisionRows`).
- **The canonical join** (`CanonicalJoin`, `JoinedLinks`) of prediction ledgers and completed cases.
- **The leak-free policy study** (`SignalPolicies`, `PolicyStudy`). The policy and utility functions are parameters, so
  non-interference holds for every choice of them.
- **Order sizing and its transport guard** (`OrderSizing`, `OrderTerms`), **the stale source check**
  (`SelectionIndex`) and **the launch gate** (`LaunchGate`).
- `Sorting` (a stable sort and when its outcome is independent of input order), `TextOrder` (strings by
  code point), `Extremes`, `Reals` and `Options` are shared.

Each operation has a second account, in the modules with `Reports`, `Effects`, `Readings`, `Rows`, `Links`,
`Study` or `Terms` in their names: what it reports, in the terms of the messages, rows and quotes alone,
without the functions by which the model computes it.

## What the code does differently from what one would expect

- A link can be written after the generation is fatal, exactly when another process latches it while a
  pass is under way: the latch is read once, before the entries (`LinkerTheorems.LinkAfterLatch`, with
  the run of `LinkerRestart.LatchedPassStillLinks`). It is at most one (`LinkerTheorems.LatchFreezes`).
- The linker can latch a generation with nothing wrong, or die in one, because it reads and writes without
  a lock over both. It latches when the candidate records the same pending case between the look and the
  append (`LinkerRestart.PendingRaceLatches`); it dies when the candidate excludes its late prediction
  between the read and the call (`LinkerRestart.LateRaceKills`), and when a prediction is appended and
  attested between the reads of the two ledger files (`LinkerRestart.LoadRaceKills`). Within a pass these
  are the only causes besides an unadmitted bar and lost coverage (`LinkerTheorems.StopsOnlyFor`), and of
  the load the only one (`LinkerTheorems.LoadRaisesExactly`). A death is a crash like any other for
  the theorems about recovery and restart.
- Excluding a case and checking the coverage that is left are two writes. A crash between them loses the
  latch: the next pass finds the case excluded, skips the check and goes on to link
  (`LinkerRestart.CrashLosesLatch`). So recovery agrees with a run free of crashes exactly under the
  condition of `LinkerRecovery.CrashRecovery`.
- A crash of the very first pass after a link but before the first status leaves a linker whose restart
  is always refused (`LinkerRestart.FirstPassCrashIsStuck`); every other crash of a running linker can be
  restarted from (`LinkerRestart.CrashesThatStick`).
- Recording an exclusion with a prediction identity raises even when the case is already excluded with
  that identity (`Coordinator.RepeatedExclusionRaises`). The linker excludes only cases it has read as
  absent, which does not avoid the call when the candidate is faster.
- `replay_match` is true of exactly the clean runs, but a live loop ended by a type error records no
  validation failure (`Level2Book.TypeErrorIsNoFailure`); the characterization names both.
- The plain conservation identity of the sequence summary fails exactly when a step is out of order
  (`SequenceGaps.PlainConservation`).
- For quotes on the tick grid the passive price of a crossed book crosses, although it retreats by a tick
  (`OrderSizing.ClearExactlyWhenUncrossed`).
- The documented selection objective ends with the higher net utility; the code breaks a remaining tie by
  the greater policy name.
- In the stale source check a boolean cycle counts as an integer, so `true` and `1` share a key
  (`SelectionIndex.BooleanSharesKey`).

## Model

| member | source | states |
|---|---|---|
| PriceLevels.ApplyInPlace | scripts/qualify_phase3_binance_spot_testnet_depth.py:176-184 | the loop over one side of an event leaves the side and the success flag of `Apply`: what was written before a malformed level stays written |
| PriceLevels.ApplyDistinctInPlace | scripts/qualify_phase3_binance_spot_testnet_depth.py:160-174 | the loop over a snapshot side leaves what `ApplyDistinct` gives, with a price still present refused |
| PriceLevels.ApplyDistinctIsApply | scripts/qualify_phase3_binance_spot_testnet_depth.py:160-184 | a snapshot side that is accepted is the side plain level application builds |
| PriceLevels.ApplyIsLastWriterMap | scripts/qualify_phase3_binance_spot_testnet_depth.py:176-184 | applied to an empty side, readable levels leave exactly the map of the last quantity written per price, a zero meaning absent |
| PriceLevels.ApplyForgets | scripts/qualify_phase3_binance_spot_testnet_depth.py:176-184 | two sides that differ only at prices the levels name become equal |
| PriceLevels.CrossedAtTheBest | scripts/qualify_phase3_binance_spot_testnet_depth.py:188-190 | some bid reaches some ask exactly when the highest bid reaches the lowest ask |
| PriceLevels.FindCrossing | scripts/qualify_phase3_binance_spot_testnet_depth.py:188-190 | comparing the highest bid with the lowest ask, when there are both, finds exactly the crossed books |
| DepthBook.BookState.ReadSnapshot | scripts/qualify_phase3_binance_spot_testnet_depth.py:145-158 | building a book from a snapshot mutates the two sides in place and ends with the error, or the two-sided uncrossed book, of `FromSnapshot` |
| DepthBook.BookState.Update | scripts/qualify_phase3_binance_spot_testnet_depth.py:176-190 | an event changes bids, asks and last update ID in place as `ApplyEvent` says, a partly changed book included when it fails |
| DepthBook.BookState.ValidateCrossing | scripts/qualify_phase3_binance_spot_testnet_depth.py:188-190 | fails exactly on a crossed book |
| DepthBook.ReadRecords | scripts/qualify_phase3_binance_spot_testnet_depth.py:268-308 | the record loop with its cursor, synchronization flag and counters leaves the fold `Run` of one step per record, and the book object holds the final book even after an error |
| DepthBook.ProcessRecords | scripts/qualify_phase3_binance_spot_testnet_depth.py:242-338 | the whole procedure from snapshot to report returns `Process` |
| DepthTheorems.OneTestOneCursor | scripts/qualify_phase3_binance_spot_testnet_depth.py:271-308 | the branches before and after synchronization are one test on one cursor: the counters, flags and target alter neither book nor failure |
| DepthTheorems.LiveEqualsReplay | scripts/qualify_phase3_binance_spot_testnet_depth.py:503-519 | over the same messages, other receipt times and any allowed clock offset give the same book, error, event, control, discarded and repeated counts |
| DepthTheorems.RedeliveryInvariance | scripts/qualify_phase3_binance_spot_testnet_depth.py:271-308 | inserting a control message, or any event that ends at or below the cursor, anywhere in an error-free stream keeps it error-free and keeps the final book |
| DepthTheorems.Coverage | scripts/qualify_phase3_binance_spot_testnet_depth.py:271-308 | in an error-free run every update ID after the start up to the cursor lies in the range of an applied event, and the cursor strictly increases from one applied event to the next |
| DepthTheorems.BookIsAppliedLevels | scripts/qualify_phase3_binance_spot_testnet_depth.py:176-186 | the final book of an error-free run is the starting book with the levels of all applied events written in order |
| DepthTheorems.RunIsSound | scripts/qualify_phase3_binance_spot_testnet_depth.py:176-190 | every event that returns normally keeps the book uncrossed and its quantities positive |
| DepthTheorems.CleanReport | scripts/qualify_phase3_binance_spot_testnet_depth.py:242-338 | a report without validation error has an applied event, covers every update ID from the snapshot to the final one, has strictly increasing cursors, and its book is the last-writer map over snapshot and applied levels, positive and uncrossed |
| DepthTheorems.EventsSplit | scripts/qualify_phase3_binance_spot_testnet_depth.py:271-308 | events split exactly into discarded, repeated-or-old and applied, records into events and controls, and the stream is synchronized exactly when something was applied |
| DepthTheorems.LateBootstrap | scripts/qualify_phase3_binance_spot_testnet_depth.py:145-308 | a snapshot equal to the book an earlier one reaches after a prefix gives, over the whole error-free stream, the same final book and cursor; it fails to synchronize exactly when nothing after the prefix is applied, and otherwise its report has the same error |
| DepthTheorems.BootstrapInsideEvent | scripts/qualify_phase3_binance_spot_testnet_depth.py:145-308 | the same for a snapshot cut inside the range of the next event that differs from the book before it only at prices the event sets; the errors agree as well |
| DepthTheorems.PassIsFresh | scripts/qualify_phase3_binance_spot_testnet_depth.py:309-338 | a connection passes exactly when its run has no error, which takes at least five events, and every accepted event has an age from zero to the limit plus the half millisecond that rounding forgives |
| DepthReports.DecodeIs | scripts/qualify_phase3_binance_spot_testnet_depth.py:219-239 | a message is ignored exactly as a control one and accepted exactly as an update of the symbol with positive integers, a range that is not inverted and arrays of pairs; an accepted event has the five fields of the message |
| DepthReports.RefusedFor | scripts/qualify_phase3_binance_spot_testnet_depth.py:219-239 | any other message is refused for the first of its faults |
| DepthReports.SnapshotIs | scripts/qualify_phase3_binance_spot_testnet_depth.py:145-174 | a snapshot becomes a book exactly when its ID is positive and each side is readable, repeats no price, stands and does not cross the other, and the book has its own levels |
| DepthReports.StreamFits | scripts/qualify_phase3_binance_spot_testnet_depth.py:145-308 | a stream fails at no message exactly when each is a control message, is old, or joins on to the highest ID before it and leaves levels that do not cross; the book is then that of the levels the messages themselves carry |
| DepthReports.CleanExactly | scripts/qualify_phase3_binance_spot_testnet_depth.py:242-338 | an offset beyond five seconds is refused; any other report has no error if and only if the snapshot fits, every message fits, some update raises the highest ID and there are at least five |
| DepthReports.CleanFigures | scripts/qualify_phase3_binance_spot_testnet_depth.py:242-338 | every figure of a report without error is that of its records, and its book is the last-writer map of the bids the messages carry as bids and the asks they carry as asks |
| DepthReports.PassesExactly | scripts/qualify_phase3_binance_spot_testnet_depth.py:309-338 | a report without error passes if and only if no age is negative or beyond 30.0005 seconds |
| DepthReports.RoundMilliIs | scripts/qualify_phase3_binance_spot_testnet_depth.py:296-338 | ages are reported to the nearest thousandth, a tie going to the even one |
| DepthReports.FirstFaultDecides | scripts/qualify_phase3_binance_spot_testnet_depth.py:268-338 | the error of a report is the fault of the first message that does not fit, and its book is what the messages before it and the readable part of that one wrote |
| DepthReports.LackDecides | scripts/qualify_phase3_binance_spot_testnet_depth.py:309-338 | with no fault in any message the report lacks a synchronizing update, then five updates, or nothing |
| DepthReports.SnapshotFaultDecides | scripts/qualify_phase3_binance_spot_testnet_depth.py:145-174 | a snapshot that does not fit is refused for its first fault and nothing is counted |
| Level2Book.FillInPlace | scripts/qualify_phase3_coinbase_level2.py:114-128 | the loop over a snapshot side leaves the side of `FillSide`, cleared first and refusing zero sizes |
| Level2Book.BookState.ReadSnapshot | scripts/qualify_phase3_coinbase_level2.py:114-128 | a snapshot message changes the book in place as `ApplySnapshot` says, partial sides included on failure |
| Level2Book.BookState.ReadUpdate | scripts/qualify_phase3_coinbase_level2.py:130-159 | an update changes the book level by level as `ApplyUpdate` says, partly changed on failure |
| Level2Book.BookState.Read | scripts/qualify_phase3_coinbase_level2.py:224-239 | one raw message has the effect and the outcome of `ApplyMessage`: counted, value error or type error |
| Level2Book.Replay | scripts/qualify_phase3_coinbase_level2.py:310-316 | replay stops at the first error with the book, counts and failure of `ReplayRun` |
| Level2Book.CollectConnection | scripts/qualify_phase3_coinbase_level2.py:338-373 | the live loop skips unexpected products, survives value errors, ends at a type error, and its comparison with the replay is that of `Collect` |
| Level2Book.ReplayBoundsLive | scripts/qualify_phase3_coinbase_level2.py:310-356 | while replay has no error, live has the same book, no invalid message and no type error, and counts fewer messages by exactly the unexpected ones |
| Level2Book.CleanReplays | scripts/qualify_phase3_coinbase_level2.py:310-373 | a live run without failure replays without error to the same book and counts |
| Level2Book.ReplayMatchesExactlyWhenClean | scripts/qualify_phase3_coinbase_level2.py:338-373 | `replay_match` holds if and only if the live loop recorded no validation failure and was not ended by a type error, although live and replay treat bad messages differently |
| Level2Book.TypeErrorIsNoFailure | scripts/qualify_phase3_coinbase_level2.py:338-373 | a message whose type cannot be hashed ends the live loop with no validation failure recorded and no match |
| Level2Book.OneSnapshotFirst | scripts/qualify_phase3_coinbase_level2.py:114-142 | in an error-free run there is at most one snapshot and every update has it before it |
| Level2Book.CleanBook | scripts/qualify_phase3_coinbase_level2.py:114-159 | the book of an error-free run is the last-writer map of everything written, positive and uncrossed |
| Level2Reports.UpdateCounts | scripts/qualify_phase3_coinbase_level2.py:130-159 | an update is counted if and only if a snapshot was seen, its changes are a non-empty array, each has side buy or sell, a readable positive price and a readable size of at least zero, and the written book is not crossed; the changes before the first unreadable one are written either way |
| Level2Reports.SnapshotCounts | scripts/qualify_phase3_coinbase_level2.py:114-128 | a snapshot is counted if and only if none was seen, it has two arrays not both empty, sizes are positive, no price comes twice on a side and its levels do not cross; what a refused one leaves written is stated too |
| Level2Reports.ReplayExactly | scripts/qualify_phase3_coinbase_level2.py:310-316 | replay meets no error if and only if every message has its place |
| Level2Reports.CountedAs | scripts/qualify_phase3_coinbase_level2.py:224-239 | a message is counted only under its own kind, and the type error is exactly that of an unhashable kind |
| Level2Reports.ReplayCounts | scripts/qualify_phase3_coinbase_level2.py:310-316 | the counts of an error-free replay are those of its messages by kind |
| Level2Reports.LiveCounts | scripts/qualify_phase3_coinbase_level2.py:338-373 | the live loop counts every message it handles once, as its kind, as of an unexpected product, as invalid or as the type error that ends it, and ends at the first such |
| Coordinator.LongRunCoordinator.Pend | src/advisorai/phase4/v3core_longrun_runtime.py:2203-2225 | a pending record is accepted only from absent, unless identical, latched or bound elsewhere; refused calls change nothing |
| Coordinator.LongRunCoordinator.Exclude | src/advisorai/phase4/v3core_longrun_runtime.py:2227-2269 | an exclusion is accepted from absent or the matching pending case, and is followed by the latch when too few clean cases remain possible |
| Coordinator.LongRunCoordinator.Certify | src/advisorai/phase4/v3core_longrun_runtime.py:2271-2301 | a clean record is accepted only from the matching pending case, and is without effect on an identical clean one |
| Coordinator.RepeatedExclusionRaises | src/advisorai/phase4/v3core_longrun_runtime.py:2227-2269 | repeating an exclusion that is there raises exactly when it has a prediction identity, even its own |
| Coordinator.FeasibleCountsExclusions | src/advisorai/phase4/v3core_longrun_runtime.py:2390-2422 | the published feasibility holds exactly while no symbol has more exclusions than target minus minimum |
| Coordinator.CallsKeepIdentities | src/advisorai/phase4/v3core_longrun_runtime.py:2203-2301 | whatever calls are made: a case excluded or clean stays, no other case is touched, a latched generation accepts nothing new, and no prediction stands for two opportunities and no outcome for two clean cases |
| OutcomeLinker.MicroDescends | scripts/link_phase4_v3core_longrun_prediction_outcomes.py:264-429 | every step of a pass, a durable write or a read another process can overtake, moves it to a later entry or a later phase of the same entry, so a pass ends |
| OutcomeLinker.Linker.ExcludeLate | scripts/link_phase4_v3core_longrun_prediction_outcomes.py:277-309 | the late branch takes the pass from this entry to where the write-by-write machine takes it, whether it continues, breaks with a failure or raises |
| OutcomeLinker.Linker.CompleteLinked | scripts/link_phase4_v3core_longrun_prediction_outcomes.py:324-355 | the same for an entry already linked: the pending and clean transitions a crash left out are made |
| OutcomeLinker.Linker.LinkOutcome | scripts/link_phase4_v3core_longrun_prediction_outcomes.py:356-429 | the same for an entry without a link: its bars, admission, pending case, deadline exclusion and append |
| OutcomeLinker.Linker.AppendAndCertify | scripts/link_phase4_v3core_longrun_prediction_outcomes.py:393-429 | the same from the clock reading on: exclusion after the deadline, otherwise append and then certify |
| OutcomeLinker.Linker.RunPass | scripts/link_phase4_v3core_longrun_prediction_outcomes.py:264-429 | the loop over entries leaves links, ledger and failure exactly as running the write-by-write machine to its end does |
| LinkerSafety.MicroSound | scripts/link_phase4_v3core_longrun_prediction_outcomes.py:264-429 | each step of a pass keeps the disk invariant, whatever was recorded between its reads and its writes, so a crash after any of them leaves a sound disk |
| LinkerSafety.Reachable | scripts/link_phase4_v3core_longrun_prediction_outcomes.py:222-460 | the invariant holds in every state reached by any interleaving of linker reads and writes, crashes, restarts, predictions, attestations, exclusions, bars and latches |
| LinkerTheorems.SafeOverAllRuns | scripts/link_phase4_v3core_longrun_prediction_outcomes.py:236-429 | over every such run: links are one per prediction and built from exactly its twelve consecutive 300-second admitted bars, with its cutoff, at most at the deadline; no late or excluded prediction has a link, and every clean case has a link with its outcome |
| LinkerTheorems.LinkStamped | scripts/link_phase4_v3core_longrun_prediction_outcomes.py:393-417 | over every run: a step that adds a link is a step of a pass at a reading within the deadline, and the link has the prediction, key and cutoff of the entry the pass is at and that reading as its time |
| LinkerTheorems.CleanIsLinked | scripts/link_phase4_v3core_longrun_prediction_outcomes.py:324-422 | an entry whose case is clean has its link |
| LinkerTheorems.LinksInView | scripts/link_phase4_v3core_longrun_prediction_outcomes.py:249-429 | in the middle of a pass, whatever other processes do, every link is of an entry the pass has read |
| LinkerTheorems.EntriesSplit | scripts/link_phase4_v3core_longrun_prediction_outcomes.py:97-125 | in every reachable state the entries on the disk, and the entries a pass under way has read, split exactly into linked, excluded among them and the published pending outcome count |
| LinkerTheorems.StopsOnlyFor | scripts/link_phase4_v3core_longrun_prediction_outcomes.py:264-429 | over every run, in a generation that is not latched: a step of a pass latches it exactly on coverage that is lost, on a bar that is not admitted, or when the candidate recorded the same pending case between the look at it and the append; it kills the linker exactly when the candidate excluded the late case between the read and the call |
| LinkerTheorems.LoadRaisesExactly | src/advisorai/phase4/v3core_longrun_runtime.py:2594-2664 | over every run: loading the prediction ledger raises, and kills the linker, exactly when a prediction was appended and attested between the reads of its two files |
| LinkerTheorems.LinkAfterLatch | scripts/link_phase4_v3core_longrun_prediction_outcomes.py:236-239 | when a pass writes a link, the generation is fatal if and only if another process latched it during that pass |
| LinkerTheorems.LatchFreezes | src/advisorai/phase4/v3core_longrun_runtime.py:1822-1826 | over every run: once the generation is latched no case ever changes and at most one further link is ever written, and that by the pass under way at the time |
| LinkerEffects.PassDelivers | scripts/link_phase4_v3core_longrun_prediction_outcomes.py:264-429 | over every run: when a pass has ended without failure by the deadline, every prediction it read has become what its attestation and bars say: late by more than 300 seconds and excluded, realized over twelve admitted bars and linked and clean, or still open |
| LinkerEffects.LateExactly | scripts/link_phase4_v3core_longrun_prediction_outcomes.py:277-309 | over every run: a linked prediction was durable within 300 seconds of its cutoff, and one excluded by the deadline was not |
| LinkerEffects.AppendKeepsDistinct | scripts/link_phase4_v3core_longrun_prediction_outcomes.py:393-417 | whatever the state of a pass, its steps keep predictions and outcomes of links distinct |
| LinkerEffects.PendingIsWaiting | scripts/link_phase4_v3core_longrun_prediction_outcomes.py:97-125 | the published pending outcome count is the number of entries neither linked nor excluded under their own identity |
| LinkerEffects.StatusCounts | scripts/link_phase4_v3core_longrun_prediction_outcomes.py:97-125 | over every run, on the disk and in the view of a pass: each entry is linked, excluded or waiting, and the published count is of those waiting |
| LinkerEffects.StatusPublished | scripts/link_phase4_v3core_longrun_prediction_outcomes.py:222-460 | over every run: a linker at the top of its loop publishes the deadline at or after it, and before it the failure of a latched generation; a pass publishes its own end; no other step publishes; a published end is true and final |
| LinkerRecovery.FinishSettles | scripts/link_phase4_v3core_longrun_prediction_outcomes.py:264-429 | an uninterrupted pass from any sound state that ends without failure before the deadline settles every entry |
| LinkerRecovery.SettledIsUnique | scripts/link_phase4_v3core_longrun_prediction_outcomes.py:264-429 | two settled disks with the same inputs have the same cases and the same links up to the time of linking |
| LinkerRecovery.PassEndsExactly | scripts/link_phase4_v3core_longrun_prediction_outcomes.py:244-429 | a pass that nothing interrupts, begun before the deadline in a generation not latched, ends without failure if and only if every bar it needs is admitted and either its inputs exclude no more opportunities than can be spared or its late entries are all recorded already; otherwise it latches, and no call kills it |
| LinkerRecovery.CrashRecovery | scripts/link_phase4_v3core_longrun_prediction_outcomes.py:244-429 | after any two histories of passes and crashes with the same inputs, of which one further uninterrupted pass before the deadline completes the first without failure: such a pass completes the other, not latched, one if and only if the inputs exclude no more opportunities than can be spared or its own late entries are all recorded, which can be seen before the pass; then both have the same cases and, up to `linked_at`, the same links, and otherwise the pass latches. The other history may be free of crashes |
| LinkerRecovery.PassSettlesItsView | scripts/link_phase4_v3core_longrun_prediction_outcomes.py:264-429 | whatever the other processes do meanwhile, a pass that has come to its end without failure before the deadline has settled every entry of the view it began with |
| LinkerRecovery.SecondPassChangesNothing | scripts/link_phase4_v3core_longrun_prediction_outcomes.py:264-429 | a further pass on the same inputs, at any clock, changes nothing |
| LinkerRestart.StepsFinishPass | scripts/link_phase4_v3core_longrun_prediction_outcomes.py:264-429 | taking the single steps one after another, with no other process between, is the uninterrupted pass |
| LinkerRestart.CrashesThatStick | scripts/link_phase4_v3core_longrun_prediction_outcomes.py:167-215 | of all crashes of a running linker in all runs, exactly those in the middle of a pass that find a link and no status yet published leave it unable to start; every other one can be restarted from |
| LinkerRestart.StuckForever | scripts/link_phase4_v3core_longrun_prediction_outcomes.py:167-175 | from a link without a status no run ever starts the linker again or changes a link |
| LinkerRestart.StatusStays | scripts/link_phase4_v3core_longrun_prediction_outcomes.py:430-442 | once a status was published there is one in every later state |
| LinkerRestart.FirstPassCrashIsStuck | scripts/link_phase4_v3core_longrun_prediction_outcomes.py:404-442 | for every contract: a crash of the first pass between its first link and its first status leaves the linker stuck |
| LinkerRestart.LatchedPassStillLinks | scripts/link_phase4_v3core_longrun_prediction_outcomes.py:236-239 | for every contract: a run in which another process latches in mid-pass and the pass then writes a link |
| LinkerRestart.PendingRaceLatches | src/advisorai/phase4/v3core_longrun_runtime.py:1879-1881 | for every contract: a run in which the candidate records the pending case just before the linker appends the same one, and the linker latches a generation with admitted bars and full coverage |
| LinkerRestart.LateRaceKills | src/advisorai/phase4/v3core_longrun_runtime.py:2243-2244 | for every contract: a run in which the candidate excludes its late prediction between the read and the call of the linker, and the call kills the linker in a generation that is not latched and, with a case to spare, still covered |
| LinkerRestart.LoadRaceKills | src/advisorai/phase4/v3core_longrun_runtime.py:2651-2657 | for every contract: a run in which the candidate appends and attests its first prediction between the two reads, and the load kills the linker |
| LinkerRestart.CrashLosesLatch | src/advisorai/phase4/v3core_longrun_runtime.py:2249-2268 | for every contract, with exactly the exclusions it can spare recorded and the coverage intact: a crash between the exclusion of one more, late, prediction and the coverage check loses the latch, so that on the same inputs the recovering pass links and the run free of crashes latches without a link |
| ResourceLog.ReadChain | scripts/audit_phase4_v3core_resources.py:98-139 | the chain loop returns the rows, or fails at the first line whose shape, digest, predecessor or hash is wrong, as `ReadLines` says |
| ResourceLog.ReadIsChained | scripts/audit_phase4_v3core_resources.py:98-139 | every accepted log is a chain: each row names the hash before it and carries its own |
| ResourceLog.ChainedIsRead | scripts/audit_phase4_v3core_resources.py:98-139 | every such chain, written one row a line, is accepted and read back unchanged |
| ResourceLog.LastHashPinsTheLog | scripts/audit_phase4_v3core_resources.py:98-139 | two accepted logs that end in one record hash are one sequence of rows, of one length, unless they hold two bodies with the same digest |
| ResourceMonitor.RunMonitor | scripts/monitor_phase3_process_resources.py:274-346 | the sampling loop appends the chained rows and leaves the state of `Watch` |
| ResourceReadings.SampleIs | scripts/monitor_phase3_process_resources.py:148-221 | a row is running, exited or of another identity exactly as its probe says, and holds the readings: resident and virtual memory in MiB, threads, the processor share not below zero, descriptors and connections when they were read, files, bytes and exactly the errors met |
| ResourceReadings.RunWrites | scripts/monitor_phase3_process_resources.py:274-346 | a run samples turn by turn until the deadline, the exit of the target or a sample not of the running target, and writes the readings of each, chained |
| ResourceReadings.PublishedIs | scripts/monitor_phase3_process_resources.py:240-346 | every figure of the published summary, status and configuration is that of the rows: counts, times, last hash, all errors and the top of each measurement |
| ResourceAudit.RunAudit | scripts/audit_phase4_v3core_resources.py:75-291 | the audit returns the refusal or the set of issues of `Audit` |
| ResourceReadings.LogAccepted | scripts/audit_phase4_v3core_resources.py:98-139 | a log is accepted exactly when every line that is not blank is an object and every row fits, and then it is those rows |
| ResourceReadings.AuditIs | scripts/audit_phase4_v3core_resources.py:75-291 | on whatever evidence the audit refuses exactly files it does not look at, a log that is not accepted or is empty or a row without time or tree figures, and otherwise reports an issue exactly when there is that issue |
| ResourceAudit.MaximaAgree | scripts/audit_phase4_v3core_resources.py:196-245 | the maximum over the values present and the maximum with missing values as zero are equal for measurements that are not negative |
| ResourceAudit.RunIsProduced | scripts/monitor_phase3_process_resources.py:148-346 | every run writes a chain whose rows but the last are running rows of the expected identity, and the state says what the last row is |
| ResourceAudit.SummaryHasNoMismatch | scripts/monitor_phase3_process_resources.py:240-271 | the published summary of a non-empty run agrees with every figure the audit recomputes |
| ResourceAudit.RoundTrip | scripts/audit_phase4_v3core_resources.py:75-291 | a finished non-empty run is read back row for row with no summary mismatch, refused exactly when the target was not there at the last sample, and passes exactly when it ended by deadline or target exit with sample times in order and no resource error |
| SequenceGaps.ScanAdjacent | scripts/qualify_phase3_coinbase_wss.py:123-170 | the loop over adjacent pairs counts the gaps, gap total, reorderings and repeats of `Scan` |
| SequenceGaps.SequenceSummary | scripts/qualify_phase3_coinbase_wss.py:123-170 | each product is accounted from its own numbers alone, however other products interleave, and the overall state is pass exactly when there are products and all pass |
| SequenceGaps.Conservation | scripts/qualify_phase3_coinbase_wss.py:123-170 | last minus first is the steps less the repeats plus the gap total less the distance gone back, for every sequence |
| SequenceGaps.PlainConservation | scripts/qualify_phase3_coinbase_wss.py:123-170 | the identity without the last term holds if and only if no step is out of order |
| SequenceGaps.GapTotalIsMissing | scripts/qualify_phase3_coinbase_wss.py:123-170 | with no step out of order the gap total is the number of integers between first and last that were not observed |
| SequenceGaps.PassIsCoverage | scripts/qualify_phase3_coinbase_wss.py:123-170 | a product passes exactly when at least two numbers came in order and cover every integer from first to last |
| SequenceGaps.StepsCounted | scripts/qualify_phase3_coinbase_wss.py:136-150 | the gap, reordering and repeat counts are the numbers of places with such a step |
| SequenceGaps.StateExactly | scripts/qualify_phase3_coinbase_wss.py:150-165 | a product is insufficient exactly with one number and fails exactly with a gap or a step back |
| SequenceGaps.OverallExactly | scripts/qualify_phase3_coinbase_wss.py:123-170 | the products are those with a number, and the whole is insufficient without one and passes exactly when all of them do |
| Percentile.NearestRank | scripts/analyze_phase4_v3core_revision_timing.py:58-63 | for a fraction f in (0, 1] the result is the one value of the input with fewer than f*n values below it and at least f*n values at or below it |
| Percentile.Clamped | scripts/analyze_phase4_v3core_revision_timing.py:58-63 | for f at or below 0 it is the smallest value, for f at or above 1 the largest |
| Percentile.Monotone | scripts/analyze_phase4_v3core_revision_timing.py:58-63 | a larger fraction never gives a smaller percentile |
| Percentile.OrderFree | scripts/analyze_phase4_v3core_revision_timing.py:58-63 | permuting the input changes nothing |
| Percentile.Dominated | scripts/analyze_phase4_v3core_revision_timing.py:58-63 | pointwise smaller values have a percentile at most as large |
| RevisionTiming.TerminalOccurrences | scripts/analyze_phase4_v3core_revision_timing.py:106-115 | the loop finds the places where the terminal version comes in a response that had not carried it |
| RevisionTiming.FirstRepeated | scripts/analyze_phase4_v3core_revision_timing.py:116-122 | the loop with one response set per version, left at the first set of two, finds `FirstRepeat` |
| RevisionTiming.FirstRepeatIsRepeat | scripts/analyze_phase4_v3core_revision_timing.py:116-122 | that is the first place whose version an earlier, different response carried |
| RevisionTiming.ScanInterval | scripts/analyze_phase4_v3core_revision_timing.py:91-146 | an interval without closed observation has no row, any other the row `RowOf` |
| RevisionTiming.Analyze | scripts/analyze_phase4_v3core_revision_timing.py:72-146 | a terminal boundary before a receipt is refused; otherwise the rows come in key order |
| RevisionTiming.OthersFound | scripts/analyze_phase4_v3core_revision_timing.py:96-105 | the first and the last place of another version, exactly when there is one |
| RevisionTiming.RevisionsExist | scripts/analyze_phase4_v3core_revision_timing.py:96-105 | first and last revision are reported exactly when more than one closed version was received |
| RevisionTiming.ConfirmationsCounted | scripts/analyze_phase4_v3core_revision_timing.py:106-145 | the confirmation count is the number of different responses carrying the terminal version, and a second confirmation, which exists exactly when there are two, implies a repeated version no later |
| RevisionTiming.LagsOrdered | scripts/analyze_phase4_v3core_revision_timing.py:66-146 | with receipts in order, first close, first revision and last revision are ordered, and so are first close, first repeat and second confirmation |
| RevisionTiming.InterleavingFree | scripts/analyze_phase4_v3core_revision_timing.py:86-146 | the rows do not depend on how observations of different intervals interleave |
| RevisionTiming.SummaryOrdered | scripts/analyze_phase4_v3core_revision_timing.py:148-176 | each percentile and the maximum of an instrument's first revision lags are at most those of its last revision lags, over equally many rows |
| RevisionRows.RowIs | scripts/analyze_phase4_v3core_revision_timing.py:91-146 | a row holds the observation, closed, version and confirmation counts of its interval and five lags: each the receipt of the place in question less the interval end, or zero when that is negative, and absent exactly when there is no such place; the places are the first closed, the first and last other version, the first version carried before by another response, and the first other response with the final version |
| RevisionRows.AnalysisIs | scripts/analyze_phase4_v3core_revision_timing.py:86-146 | the analysis reports one such row for each interval with a closed observation, by instrument and then by end |
| RevisionRows.BoundaryIs | scripts/analyze_phase4_v3core_revision_timing.py:83-84 | the boundary is refused exactly when some receipt is later than it |
| RevisionRows.SummarizedAre | scripts/analyze_phase4_v3core_revision_timing.py:155-176 | the summary of an instrument is over the first and last revision lags of its own rows |
| CanonicalJoin.LoadCases | scripts/link_phase4_v3core_prediction_outcomes.py:32-53 | the loop over case lines fills the map of `CasesOf` or refuses |
| CanonicalJoin.CasesLoaded | scripts/link_phase4_v3core_prediction_outcomes.py:32-53 | loading succeeds exactly when every line is well formed and no slot has two case identities, and then maps each slot to its last record |
| CanonicalJoin.LoadPredictions | scripts/link_phase4_v3core_prediction_outcomes.py:56-81 | the nested loops return all entries exactly when every ledger exists, is well formed and chained, and no prediction occurs twice in or across ledgers |
| CanonicalJoin.MatchEntries | scripts/link_phase4_v3core_prediction_outcomes.py:97-115 | all matches are returned exactly when every prediction has a case of its slot with a later outcome |
| CanonicalJoin.LinkLedger.Append | src/advisorai/phase4/v3core_prediction_ledger.py:225-250 | an append is ignored exactly for a known identity pair, otherwise it adds one chained record |
| CanonicalJoin.LinkPredictions | scripts/link_phase4_v3core_prediction_outcomes.py:84-141 | the whole join is `Join`; the duplicate refusal at the end is never taken |
| CanonicalJoin.MatchesLinear | scripts/link_phase4_v3core_prediction_outcomes.py:119-127 | the sort key orders all matches |
| CanonicalJoin.KeyIsStrict | scripts/link_phase4_v3core_prediction_outcomes.py:119-127 | two different matches of one join never tie in the sort key |
| TextOrder.TextIs | scripts/link_phase4_v3core_prediction_outcomes.py:119-127 | texts compare as sort keys by the first character in which they differ, and a beginning comes before what it begins |
| CanonicalJoin.JoinSucceeds | scripts/link_phase4_v3core_prediction_outcomes.py:84-117 | the join succeeds if and only if the output is new, the case file is sound, the ledgers are sound with distinct predictions and at least one entry, and the last case of every prediction's slot has a later outcome |
| CanonicalJoin.PathOrderFree | scripts/link_phase4_v3core_prediction_outcomes.py:84-133 | any permutation of the ledger paths gives the same refusal or the same records |
| CanonicalJoin.EachLinkedOnce | scripts/link_phase4_v3core_prediction_outcomes.py:97-133 | on success the ledger can be reopened, has one link per prediction, and links each once, to the last case of its exact instrument and cutoff, at a later outcome time |
| JoinedLinks.JoinRuns | scripts/link_phase4_v3core_prediction_outcomes.py:84-117 | the join succeeds if and only if its output is new, the case lines are readable with one identity to an instrument and cutoff, each ledger is readable, numbered and chained, there is a prediction, none comes twice, and each has a last case realized after its cutoff |
| JoinedLinks.JoinWrites | scripts/link_phase4_v3core_prediction_outcomes.py:119-133 | the links come in ascending cutoff, instrument, model and identity over the predictions' own fields, one for each prediction, numbered from one, hashed and chained, each naming the prediction, its last case and the time of that outcome |
| JoinedLinks.ReopensExactly | src/advisorai/phase4/v3core_prediction_ledger.py:192-219 | a link ledger reopens exactly when its records are numbered, hashed and chained and no pair of prediction and case comes twice |
| SignalPolicies.PartitionObservations | scripts/evaluate_phase4_signal_policies.py:221-241 | the grouping and cutting loops return the split, or refuse unless there are exactly BTCUSDT and ETHUSDT with 64 observations each |
| SignalPolicies.SplitIsChronological | scripts/evaluate_phase4_signal_policies.py:221-241 | the three parts hold every observation once, 32, 16 and 16 of each instrument, and each part of an instrument lies before the next |
| SignalPolicies.IndexPredictions | scripts/evaluate_phase4_signal_policies.py:206-218 | the loop fills the index or refuses |
| SignalPolicies.IndexFinds | scripts/evaluate_phase4_signal_policies.py:206-218 | indexing succeeds exactly when no model predicts an observation twice, and then finds each prediction at its place and nothing else |
| SignalPolicies.StrongestIsMax | scripts/evaluate_phase4_signal_policies.py:307-316 | the strongest baseline has the largest net utility, the greatest name among equals |
| SignalPolicies.ChoiceIsBest | scripts/evaluate_phase4_signal_policies.py:336-367 | the choice is the lexicographic maximum by incremental utility, lower turnover, net utility and policy name, and is absent exactly when no attempt has positive incremental utility |
| SignalPolicies.ChoiceOrderFree | scripts/evaluate_phase4_signal_policies.py:336-367 | with one attempt per policy the choice and the ranking do not depend on the order of the attempts |
| SignalPolicies.SplitIgnoresHoldout | scripts/evaluate_phase4_signal_policies.py:221-241 | inputs that agree except in the outcomes of held-out observations are split alike |
| SignalPolicies.IndexIgnoresHoldout | scripts/evaluate_phase4_signal_policies.py:206-218 | predictions that agree in model and observation, and in value on the development part, are refused alike or found alike there |
| SignalPolicies.HoldoutDoesNotInterfere | scripts/evaluate_phase4_signal_policies.py:284-367 | two inputs that agree on identities and on the development part have the same refusals, attempts, ranking and selected policy, for any policy and utility functions |
| PolicyStudy.ScoresOf | scripts/evaluate_phase4_signal_policies.py:284-305 | the scores of a model are those of the policy applied to its development path, evaluated on the validation observations and their signals, in the four scenarios |
| PolicyStudy.AttemptIs | scripts/evaluate_phase4_signal_policies.py:284-333 | an attempt exists exactly when the six models have such scores; its net utility and turnover are the conservative ones of ttm-r2, its strongest baseline is the one of the five with the largest conservative net utility and among equals the greatest name, and its incremental utility is the first net less that one |
| PolicyStudy.PositiveBeats | scripts/evaluate_phase4_signal_policies.py:307-316 | the incremental utility is positive exactly when ttm-r2 beats every baseline under the conservative costs |
| PolicyStudy.ChoiceIs | scripts/evaluate_phase4_signal_policies.py:336-367 | the ranking lists the policies by incremental utility, then lower turnover, then net utility, then greater name, and the first is selected exactly when its incremental utility is positive |
| PolicyStudy.StudyRuns | scripts/evaluate_phase4_signal_policies.py:533-541 | a study runs exactly on observations that split, predictions of the seven models that repeat no place, and at least one policy, each of which has its scores |
| PolicyStudy.StudySelects | scripts/evaluate_phase4_signal_policies.py:284-367 | a study reports for each policy the attempt just described and the choice among them, and selects a policy if and only if ttm-r2 beats every baseline on some policy |
| PolicyStudy.SplitExactly | scripts/evaluate_phase4_signal_policies.py:221-241 | observations split exactly when there are 64 of each of the two instruments and no other, into the first 32, the next 16 and the last 16 of each by cutoff and then identity |
| OrderSizing.RoundDownIs | scripts/qualify_binance_spot_testnet_lifecycle.py:392-395 | flooring to an increment gives the multiple at most one increment below |
| OrderSizing.RoundUpIs | scripts/qualify_binance_spot_testnet_lifecycle.py:388-397 | rounding up gives the multiple less than one increment above |
| OrderSizing.PriceIsPassive | scripts/qualify_binance_spot_testnet_lifecycle.py:392-397 | on a book with bid below ask the price is a tick multiple within a tick of its own side and does not reach the other |
| OrderSizing.ClearExactly | scripts/qualify_binance_spot_testnet_lifecycle.py:392-397 | for any quotes the price stays clear of the opposite quote if and only if its own quote, rounded to the grid, is less than a tick beyond it |
| OrderSizing.ClearExactlyWhenUncrossed | scripts/qualify_binance_spot_testnet_lifecycle.py:392-397 | so it does for any quotes with bid at most ask; for quotes on the tick grid it does only then: on a crossed book the retreat of one tick never suffices |
| OrderSizing.QuantityIsLeast | scripts/qualify_binance_spot_testnet_lifecycle.py:400-403 | the quantity meets the symbol minimum and 1.02 times the minimum notional, and unless the symbol minimum decides it is the least step multiple that does |
| OrderSizing.ListCandidates | scripts/qualify_binance_spot_testnet_lifecycle.py:665-692 | the two loops list the candidates in order, skipping prices at or below zero |
| OrderSizing.SelectOrder | scripts/qualify_binance_spot_testnet_lifecycle.py:693-704 | the first affordable candidate of at most 25 is selected, and none exactly when there is none |
| OrderSizing.CandidateIsSound | scripts/qualify_binance_spot_testnet_lifecycle.py:388-403 | each candidate of an uncrossed market meets every bound on price, quantity and notional |
| OrderSizing.SelectedIsSound | scripts/qualify_binance_spot_testnet_lifecycle.py:665-704 | the selected order is sound in this sense exactly when its own market is not locked or crossed, whatever the others are, and is always within the limit and covered by the free balance of the right asset |
| OrderTerms.CandidateExactly | scripts/qualify_binance_spot_testnet_lifecycle.py:392-403 | for any quotes the candidate of a market and side has the one price on the grid next to its own quote, retreated by a tick when the book is locked or crossed, the larger of the symbol minimum and the fewest steps worth 1.02 times the smallest notional, and is affordable exactly when the free quote balance covers the notional of a buy or the free base balance the quantity of a sell; there is none exactly when that price is not positive |
| OrderTerms.CandidatesPlaced | scripts/qualify_binance_spot_testnet_lifecycle.py:665-692 | the candidates are listed market by market, the buy before the sell, and none is missing |
| OrderTerms.FirstAcceptable | scripts/qualify_binance_spot_testnet_lifecycle.py:693-704 | what is selected is the first of them in that order that is covered and of at most 25, and there is one exactly when some place has such an order |
| OrderSizing.RecordingTransport.SubmitOrder | scripts/qualify_binance_spot_testnet_lifecycle.py:325-337 | a submission is counted and recorded first and delegated only as the first, with its order routed |
| OrderSizing.RecordingTransport.CancelOrder | scripts/qualify_binance_spot_testnet_lifecycle.py:339-361 | a cancellation is counted and recorded first and delegated only with its order waiting for one |
| OrderSizing.CallsCounted | scripts/qualify_binance_spot_testnet_lifecycle.py:325-361 | over any call sequence the counters and the recorded states are those of all calls, in order |
| OrderSizing.OneSubmissionForwarded | scripts/qualify_binance_spot_testnet_lifecycle.py:325-361 | over any call sequence at most one submission is forwarded, namely the first asked for and only if it was routed, and exactly the cancellations whose order was waiting |
| OrderTerms.ForwardsExactly | scripts/qualify_binance_spot_testnet_lifecycle.py:325-361 | the guard forwards exactly the first submission when its order is routed and each cancellation whose order waits for one, in the order of the calls |
| OrderTerms.RecordsExactly | scripts/qualify_binance_spot_testnet_lifecycle.py:312-361 | it records of every call what it is and the state of the first order it names |
| SelectionIndex.BuildIndex | scripts/evaluate_phase3_admission.py:372-382 | the dictionary holds for every key exactly what a linear scan for the first selection finds, and a finding is recorded per repeated key |
| SelectionIndex.CheckPair | scripts/evaluate_phase3_admission.py:386-424 | the loop over the rows of a source finds what testing each row against the scan finds |
| SelectionIndex.CheckStaleIntervals | scripts/evaluate_phase3_admission.py:363-424 | the whole check returns all findings and the stale count, and passes exactly without findings |
| SelectionIndex.BooleanSharesKey | scripts/evaluate_phase3_admission.py:372-382 | two selections of one asset, one with a boolean cycle and one with the integer it stands for, are reported as duplicates in either order |
| SelectionIndex.NoDuplicates | scripts/evaluate_phase3_admission.py:372-382 | a repeated key is found exactly when two selections share an integer cycle and an asset |
| SelectionIndex.RowJudged | scripts/evaluate_phase3_admission.py:386-424 | with one selection per key a stale row is without finding exactly when a selection of its cycle and asset has removed the source |
| SelectionIndex.PassesExactly | scripts/evaluate_phase3_admission.py:372-424 | the check passes if and only if no two selections share a key and every stale row is handled |
| SelectionIndex.RowFinds | scripts/evaluate_phase3_admission.py:386-424 | which finding a stale row gives: a missing selection exactly when none has its cycle and asset, and otherwise, of the first that has, an identity named after closing or a failover that is not one |
| LaunchGate.Clock.WaitUntil | scripts/arm_phase4_v3core_longrun.py:64-77 | the wait returns the first reading at or past the target, never an earlier one, and each sleep before it is a minute, or what is left when that is less |
| LaunchGate.RequestedIs | scripts/arm_phase4_v3core_longrun.py:64-77 | a sleep is at most a minute and not past the target, and is one or the other exactly |
| LaunchGate.Gate.Publish | scripts/arm_phase4_v3core_longrun.py:269-281 | publishing appends one event and makes it the status |
| LaunchGate.Gate.Launch | scripts/arm_phase4_v3core_longrun.py:292-352 | from the end of the wait on, the events, the launch and the completion are those of `AfterWait` |
| LaunchGate.Gate.Arm | scripts/arm_phase4_v3core_longrun.py:252-352 | a refused gate publishes nothing; otherwise events, launches and completion are those of `Run`, and the status is the last event |
| LaunchGate.FirstReachedIsFirst | scripts/arm_phase4_v3core_longrun.py:64-77 | the reading returned is the first that reached the target |
| LaunchGate.TraceShape | scripts/arm_phase4_v3core_longrun.py:269-352 | every completed run publishes PRESTART? (MISSED or FINAL then FAILED or LAUNCHED), the launcher runs at most once, exactly with the final attestation, at a reading inside the window |
| LaunchGate.LaunchesExactly | scripts/arm_phase4_v3core_longrun.py:284-299 | the launcher runs exactly when the first reading is not past the window and the first later reading to reach it is inside it |
| LaunchGate.PublishedExactly | scripts/arm_phase4_v3core_longrun.py:252-352 | what is published and at which reading: PRESTART, MISSED, the attestation together with the launch, LAUNCHED exactly when the launcher exits with 0 and reports a running launch, and PREFLIGHT_FAILED exactly when it is run and does not; a run is finished exactly when MISSED, LAUNCHED or PREFLIGHT_FAILED was published |
| LaunchGate.WindowExactly | scripts/arm_phase4_v3core_longrun.py:80-87 | the window is accepted exactly with both bounds given, opening at the preregistered start and closing later |
| LaunchGate.EventsInOrder | scripts/arm_phase4_v3core_longrun.py:269-352 | with a clock that does not go back the event times do not either |
| LaunchGate.WaitEnds | scripts/arm_phase4_v3core_longrun.py:64-77 | when each sleep advances the clock by at least the time asked for, one reading per remaining minute and one more suffice |
| LaunchGate.WaitIsPrompt | scripts/arm_phase4_v3core_longrun.py:64-77 | the wait overshoots by no more than its last sleep does |
| LaunchGate.HonestClockLaunches | scripts/arm_phase4_v3core_longrun.py:284-299 | with such a clock, late by at most the length of the window, a gate armed before the window launches |

## Left out

- Network, WebSocket, HTTP, subprocess, git, `psutil`, file locks, signals, argument parsing, JSON
  decoding and SHA-256 itself. Inputs are decoded messages, with a constructor for malformed ones.
- Gate checklists, preregistration, preflight, licence, roster and qualification reports, and the
  dashboard: field equality tests and evidence writing.
- The canary, forward and long-run collectors and the launcher's own work, which would add no harder
  property than the ones above.
- Decimals and floats are reals. The 28-digit decimal context, float rounding of ages and lags, and NaN
  are not modelled; the rounding of reported ages to milliseconds is, half to even.
- DepthTheorems.LiveEqualsReplay: compares books; the digest prints decimal text, so `1.0` and `1.00` give
  equal books and different digests. A snapshot is read back from the spool as it was received.
- Coordinator.LongRunCoordinator.Pend: refusals by other lifecycle states than the fatal latch and by the
  cutoff schedule are not modelled.
- Coordinator.LongRunCoordinator.Exclude: as for `Pend`.
- Coordinator.LongRunCoordinator.Certify: as for `Pend`.
- DepthTheorems.PassIsFresh: a receipt or event time beyond the range of the platform's clock, for which
  the script raises an uncaught error, is outside the model.
- Level2Book.ReplayMatchesExactlyWhenClean: the expected product is its own normal form, as it is for the
  configured one, and the spool holds exactly the messages the live loop handled; a timeout between
  spooling and handling is outside the model.
- LinkerSafety.Reachable: the candidate excludes only its own late predictions and missed opportunities,
  and the clock readings of the linker do not go back. A read and a write are one step where no other
  process writes what was read: clean cases, exclusions of predictions on time and links are the linker's
  alone, and coverage once lost stays lost. Errors of the other reads are crashes. Of the coordinator only
  the case accounting and the fatal latch are modelled, not its other lifecycle states, its schedule
  validation or its process identity checks; the branch for a clock error is left out.
- OutcomeLinker.Linker.RunPass: the links in memory are those of the file, which the script's single
  instance lock guarantees.
- LinkerRecovery.CrashRecovery: the final passes run alone and before the deadline, as promised; outcome
  identities are symbolic, so equality of digests is equality of what was hashed.
- ResourceAudit.RunAudit: as for `ResourceAudit.RoundTrip`.
- ResourceAudit.RoundTrip: metrics are numbers or absent. Values of other types, malformed summary
  timestamps, an error list of another type, errors raised while reading the process table and the growth
  figures of the audit are not modelled; error lists are sets.
- Percentile.NearestRank: over exact reals; in floating point the product of fraction and length can
  round across an integer.
- RevisionTiming.SummaryOrdered: the other lag metrics of the summary are not modelled, since they are
  present in different rows, nor is the decoding of raw responses.
- CanonicalJoin.LinkPredictions: every refusal is one value; which of several is raised first does depend
  on the order of the paths. The record hash is an arbitrary function of the record.
- SignalPolicies.HoldoutDoesNotInterfere: the bodies of the policy and utility functions are parameters;
  the diagnostics over the whole input, which are not used for selection, are left out.
- PolicyStudy.StudyRuns: observation identities are distinct, which the script demands of its input before
  it splits it; its checks of the measurement and review files are left out.
- OrderSizing.SelectedIsSound: exact arithmetic. The failure of a delegated call is not modelled, since the
  guard counts before it delegates.
- SelectionIndex.CheckStaleIntervals: stale counts are integers; a count of another type, on which the
  script raises, is not modelled.
- LaunchGate.Gate.Arm: the checks of readiness, code identity and roots before the window are left out, as
  is the text of event details. A run is the finite sequence of clock readings it makes, so a run that is
  still waiting or is stopped is one that is cut.
