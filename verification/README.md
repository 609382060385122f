# Verified model of agent_nettools' decision cores

This project models the parts of agent_nettools in which state, interleaving or
arithmetic decide an outcome, and proves what those parts keep over every input, run or
reachable state. `dafny verify dfyconfig.toml` checks all of it.

## What is modelled

| file | part of the system |
|---|---|
| `Names.dfy` | device names made into safe file names, and the lock-file names built from them |
| `SlotAdmission.dfy` | the two-level counting semaphore over lock files, as a step machine: any number of attempts scan, take a device slot, then a fabric slot, run, release, are refused, or die |
| `SlotScans.dfy` | what a scan that fails in the middle of other attempts' steps says about the pool |
| `SlidingLog.dfy` | the theory shared by all rate limits: a pruned log of time stamps against the history it forgot, with clock readings that may be late |
| `RateWindow.dfy` | the file-backed sliding window and the claims of event identities, each on the lines of one file |
| `Budgets.dfy` | the directory of those files: the device-then-fabric budgets of active probes and of event runs, and the claims |
| `BudgetRuns.dfy` | runs over that directory in which the two locked halves of every check interleave with everything else |
| `SharedFiles.dfy` | which device names have a file of their own, and what happens to the names that share one |
| `EventRuns.dfy` | the event-run state file: pruned starts, leased events, finishes |
| `EventWindows.dfy` | exactly when the start limits of that file hold for the whole window |
| `Calendar.dfy`, `NearestYear.dfy`, `Medians.dfy`, `ClockSkew.dfy` | placing a year-less device time stamp near a dated reference, medians per device, the fabric's span and status |
| `ExpansionCache.dfy` | the bounded first-in-first-out cache of evidence contexts with a fixed time to live |
| `AgentLoop.dfy` | the bounded tool-calling loop: stop reasons, deadline, ordered tool results, usage |
| `Evidence.dfy`, `Rungs.dfy` | parsed evidence and the rung checks, with their corroboration tiers |
| `Health.dfy`, `Fabric.dfy` | the health rules, the device verdict and the fabric roll-up |
| `Boundary.dfy` | the recursive result sanitiser of the MCP boundary |
| `Coverage.dfy` | the parser-coverage accountant |
| `FabricAudit.dfy` | the cross-device audit: MTU mismatches and duplicate router-IDs |
| `EventIdentity.dfy` | which payload updates keep an event's identity |
| `Common.dfy` | an option type and counting facts |

Classes and loops stand where the source updates state in place: the admission directory,
the event store, the cache, the coverage auditor and its counters, and the loops of the
agent, the verdicts, the sanitiser and the audit. Each such method is tied by its contract
to a function of its inputs or its old state, and the lemmas are about that function.
A section under one lock is a single step. Routines that hold no lock throughout are broken
into their sections: the slot semaphore into its attempts on single files, and a budget check
into its device half and its fabric half, with anything allowed in between.

Values from outside are parameters: clock readings, model replies and tool executions,
parsed records, the interface-name canonicaliser, case folding and stripping of names, the
quoting of device text, ignore rules, and the table of error kinds.

Results worth knowing:

- The clock is read before a file is locked, so readings can reach it out of order. The
  window bounds are therefore proved for the window less the lateness of the stamps in that
  file. For one file and one limit `FullWindowExactly` says when the whole window holds:
  exactly when no reading is late or the limit is at most one. For larger limits
  `LatenessShortensTheWindow` shows that the shorter interval cannot be improved.
- A budget check locks its device's file and later the fabric's. `HalvesOvertake` is a run
  whose stamps are in clock order in the device's file and not in the fabric's, so lateness
  is counted per file. `BudgetsHoldInEveryRun` bounds what is granted by both limits however
  the halves interleave, because everything granted to a device, and everything still
  between its halves, was admitted by the device's file (`GrantsPassedTheirDevice`).
- Event runs share one list of starts, and there a device limit of one is no protection
  against a late clock: another device's start can prune the first one
  (`LateStartOfAnotherDevice`). `FullFabricWindowExactly` and, for device limits not above
  the fabric's, `FullDeviceWindowExactly` say that the whole window holds exactly when no
  accepted reading is late or the fabric limit is at most one.
- A scan of the slot files that fails in the middle of other attempts' steps found every slot
  busy when it tried it (`EverySlotWasBusy`), but the pool need not have been full at any
  moment: `FailedScanMeetsFullPoolExactly` says that this is certain only for a pool of one
  slot.
- File names come from device names. A device sanitised to "fabric" shares its budget file
  with the fabric, and one sanitised to "idempotency" shares its event log with the claims,
  where each routine skips the other's lines and rewrites the file. `IsolatedExactly` says
  that every other device is judged by its own checks alone, and these two are not.
  `OthersExhaustTheFabricDevice`, `OneCheckWipesTheClaims` and `OneClaimResetsThatDevice`
  are runs in which the sharing shows. The fabric limit holds for all of them.
- The docstring of `admit_event_run` says that a completed event stays deduplicated for the
  idempotency window. The code keeps this promise when the completion finds its entry still
  in the file. If the entry had already been pruned, the completion is lost.
  `AlikeThroughoutExactly` states that this is the exact condition for the file to decide
  like the full history throughout a run; a retryable finish needs no entry.
  `LateFinishDependsOnOtherEvents` gives two runs that differ only in another event.
- In years 1 and 9999 one neighbouring year does not exist, and the 183-day bound on the
  placed date fails (`FirstYearFails`, `LastYearFails`); `FirstYearHasNoYearBefore` and
  `LastYearHasNoYearAfter` say exactly when.
- The docstring of `ldp_session_up` describes three tiers. The code has five, and the model
  follows the code.
- The sections a verdict cites are not always everything it rests on. A verdict survives the
  loss of evidence exactly while its own section and those of all earlier tiers are parsed
  (`IsisVerdictSurvivesExactly`, `LdpVerdictSurvivesExactly`). It rests on its citations
  alone exactly when it was not the port's own state that decided it
  (`IsisCitationsExactly`, `LdpCitationsExactly`); `SilentSectionsAreNotCited` is an example.
- `bgp_session_state` reads the first row about a peer, the health rule reads all of them.
  They disagree exactly when a peer is listed first as Established and again as down, as in
  `TwoRowsDisagree`; with one row per neighbor they agree.
- The audit resolves neighbors through a map that it builds in the order of the devices, and
  of two devices with one hostname the first wins. `OneMapExactly` says that the map is the
  same in every order exactly when no two inventory names differ only in case and no two
  devices share a hostname that is nobody's inventory name. `OrderDoesNotMatter` needs this
  condition, and `SharedHostnameMatters` shows evidence in which a mismatch appears in one
  order and not in another.
- The MTU rule recognises a link it has seen by its spelling, although it looks MTUs up by
  canonical name. `OneCableTwice` is an input on which one cable is reported twice,
  `EachCableOnceExactly` says when that happens, and `OneSpellingReportsOnce` is a condition
  on the rows that rules it out.

## Model

| member | source | states |
|---|---|---|
| Names.SanitizeMakesOneComponent | src/agent_nettools/admission.py:181-190 | a sanitised name is one non-empty path component of safe characters; safe names are unchanged and sanitising twice changes nothing |
| Names.RunsBecomeUnderscores | src/agent_nettools/admission.py:178-190 | letters, digits, "_", "." and "-" stay, each run of other characters becomes one underscore, and a name without characters becomes "unknown" |
| Names.SlotsNeverCollide | src/agent_nettools/admission.py:307-313 | two slots share a lock file only when they are the same slot of the same sanitised device, or the same fabric slot |
| Names.SlotFileNames | src/agent_nettools/admission.py:307-313 | the files are called device.<name>.<number>.lock and fabric.<number>.lock, with the number in decimal |
| SlotAdmission.StepKeepsInv | src/agent_nettools/admission.py:245-286 | every step of every attempt keeps each remembered slot locked by its attempt, and every lock remembered by its holder |
| SlotAdmission.CapsHoldInEveryRun | src/agent_nettools/admission.py:307-349 | in every interleaving at most the configured per-device number of bodies run for one sanitised device and at most the configured fabric number overall, where a number below one counts as one |
| SlotAdmission.LocksHeldInEveryRun | src/agent_nettools/admission.py:316-384 | a body holds exactly one slot of each kind; a refused, finished or crashed attempt, and one still at the device level, holds none |
| SlotAdmission.DeviceRefusalNeverHeldALock | src/agent_nettools/admission.py:316-384 | an attempt refused at the device level held no lock at any moment of the run, so it never touched the fabric pool |
| SlotAdmission.GivesUpExactlyWhenTheWaitIsOver | src/agent_nettools/admission.py:262-281 | an attempt whose scan fails gives up only when the configured wait has passed since it came to these slots, and sleeps for another scan only before that |
| SlotAdmission.PassedOver | src/agent_nettools/admission.py:264-275 | a slot file that is locked or cannot be opened is passed over: no lock changes and the scan comes to the next one |
| SlotAdmission.EveryLiveAttemptCanGoOn | src/agent_nettools/admission.py:262-286 | in every reachable state a live attempt has exactly one way to go on: a scan tries its next slot while a configured one is left and otherwise comes to its deadline check, a sleeper wakes, a body may exit, and the device slot is released |
| SlotAdmission.FinishedMeansItsBodyRan | src/agent_nettools/admission.py:352-384 | an attempt that ends finished has run its body |
| SlotAdmission.DeniedMeansItsBodyNeverRan | src/agent_nettools/admission.py:352-384 | an attempt that ends refused, at either level, never ran it |
| SlotAdmission.FirstFree | src/agent_nettools/admission.py:264-278 | the first slot in path order that is not locked, or none when all are |
| SlotAdmission.ScanTakesFirstFree | src/agent_nettools/admission.py:263-280 | an undisturbed scan takes exactly that slot, or ends with no lock changed |
| SlotAdmission.FullPoolHasAllItsHolders | src/agent_nettools/admission.py:245-286 | a pool with no free slot is held by as many attempts on that very pool as are configured for it, and by at least one |
| SlotAdmission.LoneScanFailsExactlyWhenFull | src/agent_nettools/admission.py:245-286 | an undisturbed scan fails exactly when the device's slots, or the fabric's, have as many holders as are configured for that level, and at least one |
| SlotScans.EverySlotWasBusy | src/agent_nettools/admission.py:259-286 | in every interleaving a scan that fails, with slot files that open, found each slot busy at some moment of it |
| SlotScans.TurnedAwayAfterAFullScan | src/agent_nettools/admission.py:263-281 | nobody is turned away or sent to sleep without a scan from the first to the last configured slot in which each was busy when it was tried |
| SlotScans.FailedScanMeetsFullPoolExactly | src/agent_nettools/admission.py:245-286 | a failed scan proves that the pool was full at some moment of it exactly when the pool has one slot; for more slots there is a run in which it never is |
| SlidingLog.WriteKeepsCover | src/agent_nettools/admission.py:405-424 | pruning and appending never lose a stamp that a later check can still count |
| SlidingLog.AdmissionKeepsBound | src/agent_nettools/admission.py:405-424 | admitting below the limit keeps every interval of the window less the lateness within the limit |
| RateWindow.CheckAndRecordWindow | src/agent_nettools/admission.py:393-427 | the loop skips lines that are not bare stamps, keeps the stamps not older than the window, refuses at the limit leaving the file alone, and otherwise rewrites it with the kept stamps and the new one |
| RateWindow.RefusedByTheNumbers | src/agent_nettools/admission.py:405-421 | a check is refused exactly when the lines that are stamps within the window number the limit |
| RateWindow.PrunedLogDecidesAsFullHistory | src/agent_nettools/admission.py:393-427 | with a clock in lock order the pruned file decides as the unpruned history |
| RateWindow.WindowHoldsInEveryRun | src/agent_nettools/admission.py:393-427 | no closed interval of the window less the lateness holds more than the limit of recorded events, for any readings |
| RateWindow.FileNeverExceedsLimit | src/agent_nettools/admission.py:393-427 | whatever the clock does, the file holds at most the limit of stamps |
| RateWindow.LatenessShortensTheWindow | src/agent_nettools/admission.py:468-473 | for every limit above one and every lateness up to the window, any longer interval can be overfilled, since the clock is read before the lock |
| RateWindow.LimitOneNeedsNoClock | src/agent_nettools/admission.py:393-427 | with a limit of one no closed interval of the whole window holds two recorded events, for any readings |
| RateWindow.FullWindowExactly | src/agent_nettools/admission.py:393-427 | the whole window holds for readings up to a given lateness exactly when that lateness is zero or the limit is at most one |
| RateWindow.ClaimEventId | src/agent_nettools/admission.py:574-602 | the loop skips lines without an identity, keeps recent claims and refuses exactly a recently claimed identity, leaving the file alone |
| RateWindow.ClaimRefusedExactly | src/agent_nettools/admission.py:574-598 | an identity is refused exactly when a line claims it within the window |
| RateWindow.EachIdentityClaimedOncePerWindow | src/agent_nettools/admission.py:559-605 | over any claims on their own file, every interval of the window less the lateness sees an identity claimed at most once |
| Budgets.LogNamesAreDistinct | src/agent_nettools/admission.py:470-528 | two budget files are one only for the same kind and sanitised name |
| Budgets.NamesOnDisk | src/agent_nettools/admission.py:470-543 | the files are called probes.<name>.log and events.<name>.log, with "fabric" for the fabric |
| Budgets.ClaimFileIsADeviceLog | src/agent_nettools/admission.py:528-573 | the claim file is the event log of a device sanitised to "idempotency", and no other budget file |
| Budgets.AdmissionDir.CheckBudget | src/agent_nettools/admission.py:430-556 | device window first, then the fabric's, with no rollback of the device record; the new contents of the whole directory |
| Budgets.VerdictByTheNumbers | src/agent_nettools/admission.py:456-500 | the device's budget is exhausted exactly when its file has the configured number of stamps within the window and at least one, and otherwise, for a device not called "fabric", the fabric's exactly when the fabric's file has |
| Budgets.AdmissionDir.Claim | src/agent_nettools/admission.py:559-605 | the outcome of a claim and the new contents of the whole directory |
| Budgets.VerdictOnTheSharedFile | src/agent_nettools/admission.py:470-490 | a device called "fabric" is judged on one file twice, the second time with its own new stamp in it |
| BudgetRuns.UninterruptedCheck | src/agent_nettools/admission.py:430-556 | a check whose two halves follow each other does exactly what the whole routine does |
| BudgetRuns.FilesCoverTheirRecords | src/agent_nettools/admission.py:470-490 | however the halves of checks and the claims interleave, every file but the claims' keeps each stamp recorded in it that a later check can still count |
| BudgetRuns.GrantsPassedTheirDevice | src/agent_nettools/admission.py:468-490 | in every interval a device's own budget admitted everything granted to it and everything of it still between its halves |
| BudgetRuns.BudgetsHoldInEveryRun | src/agent_nettools/admission.py:430-605 | over every interleaving of the halves of checks of both kinds with claims, what was granted meets the fabric limit in every interval of the window less the lateness in the fabric's file, and the device limit of every device whose log is not the claim file in every interval of the window less the lateness in its own |
| BudgetRuns.LimitOfOneNeedsNoClock | src/agent_nettools/admission.py:430-605 | where a limit is one its bound holds for the whole window, whatever the clock does and however the halves interleave |
| BudgetRuns.DeviceBudgetIsNeverLate | src/agent_nettools/admission.py:443-484 | in every reachable state, once what was granted to a device and what is between its halves uses up its limit within the window, its file refuses; refusals by the fabric only tighten it |
| BudgetRuns.HalvesOvertake | src/agent_nettools/admission.py:470-490 | stamps can reach the device's file in clock order and the fabric's file in the other order |
| SharedFiles.OwnFileIsOwnChecks | src/agent_nettools/admission.py:470-473 | in every run a private device's file is the outcome of its own checks, so nothing others do can move its verdict |
| SharedFiles.IsolatedExactly | src/agent_nettools/admission.py:470-573 | that holds for a sanitised name exactly when it is neither "fabric" nor, for event runs, "idempotency" |
| SharedFiles.FirstCallIsGranted | src/agent_nettools/admission.py:430-556 | in an empty directory the first check is granted, except for "fabric" under a fabric limit of one |
| SharedFiles.OthersExhaustTheFabricDevice | src/agent_nettools/admission.py:470-490 | another device's one check exhausts a device called "fabric" that never checked anything |
| Budgets.CheckKeepsClaimsExactly | src/agent_nettools/admission.py:528-573 | a check destroys claims exactly when it is an admitted event-run check of the device that shares the claim file |
| Budgets.ClaimKeepsStampsExactly | src/agent_nettools/admission.py:528-602 | a claim destroys stamps exactly when it is granted while that device has some |
| SharedFiles.IdentitiesClaimedOncePerWindow | src/agent_nettools/admission.py:559-605 | beside any checks except that device's, every interval of the claim window less the lateness sees an identity claimed at most once |
| SharedFiles.OneCheckWipesTheClaims | src/agent_nettools/admission.py:528-602 | with that device, one check lets an identity be claimed twice within two seconds |
| SharedFiles.OneClaimResetsThatDevice | src/agent_nettools/admission.py:528-602 | and one claim lets that device have two event runs within two seconds, even under a device limit of one |
| EventRuns.EventStore.AdmitEventRun | src/agent_nettools/admission.py:637-733 | the outcome in the order identity, device, fabric; the pruned state with the new start and lease; a refusal changes nothing |
| EventRuns.DecisionByTheNumbers | src/agent_nettools/admission.py:661-724 | the outcome in the configured numbers: duplicate exactly when the identity's entry is within the window and either settled or younger than its lease of at most 300 seconds, then the device's starts within the window, then all of them |
| EventRuns.EventStore.FinishEventRun | src/agent_nettools/admission.py:736-755 | a present entry gets the outcome and the new time; an absent one leaves the state alone |
| EventRuns.RetainStarts | src/agent_nettools/admission.py:672-676 | exactly the starts not older than the window, in order |
| EventRuns.RetainEvents | src/agent_nettools/admission.py:677-682 | exactly the events updated within the idempotency window |
| EventRuns.CountDevice | src/agent_nettools/admission.py:701-703 | the number of retained starts of the device |
| EventRuns.RunBudgetsHold | src/agent_nettools/admission.py:637-733 | over every run of admissions, refusals and finishes, each interval of the window less the lateness holds at most the device and fabric limits of starts |
| EventRuns.FabricLimitOfOneNeedsNoClock | src/agent_nettools/admission.py:637-733 | with a fabric limit of one, starts are a whole window apart whatever the clock does |
| EventWindows.FullFabricWindowExactly | src/agent_nettools/admission.py:661-733 | for accepted readings up to a given lateness the fabric limit holds for the whole window exactly when that lateness is zero or the fabric limit is at most one |
| EventWindows.FullDeviceWindowExactly | src/agent_nettools/admission.py:661-733 | and so does a device limit that is not above the fabric's, under exactly the same condition |
| EventWindows.LateStartOfAnotherDevice | src/agent_nettools/admission.py:672-703 | with limits of one and two a device starts twice within its window, because another device's start pruned its first |
| EventRuns.IdentityDecision | src/agent_nettools/admission.py:683-700 | whatever other events do, an identity is refused as a duplicate exactly when its own last entry is inside the window and bars it |
| EventRuns.AdmissionsOfOneIdentityAreALeaseApart | src/agent_nettools/admission.py:661-700 | with no finish in between, a second admission comes at least 300 seconds after the first, or the whole idempotency window when that is between one second and 300; it is refused as a duplicate exactly while that time runs |
| EventRuns.FinishSettlesTheIdentity | src/agent_nettools/admission.py:736-755 | a completed entry is refused for exactly the idempotency window; after a retryable finish only the budgets decide |
| EventRuns.ReachableStatuses | src/agent_nettools/admission.py:726-752 | only accepted, completed and retryable_failed are ever stored |
| EventRuns.PrunedStateDecidesAsFullHistory | src/agent_nettools/admission.py:637-755 | the pruned file decides every later admission as the full history, over every run in which completions find their entries |
| EventRuns.FinishDecidesAlikeExactly | src/agent_nettools/admission.py:746-752 | a finish leaves all later decisions of file and history alike exactly when it is retryable, finds its entry, or is for an unknown event |
| EventRuns.AlikeThroughoutExactly | src/agent_nettools/admission.py:637-755 | for operations in clock order, file and history decide alike after every operation exactly when every completion finds its entry |
| EventRuns.LateFinishDependsOnOtherEvents | src/agent_nettools/admission.py:746-752 | after its entry expired, a completion is kept or lost depending on another event's admission |
| Calendar.YearsAreConsecutive | src/agent_nettools/clock_skew.py:316 | the closed form for the start of a year agrees with the leap rule |
| Calendar.InstantsCountMicroseconds | src/agent_nettools/clock_skew.py:316-322 | instants count microseconds from the start of year 1: each tick of the clock adds one, across hours, months, leap days and years |
| Calendar.EarlierIsLess | src/agent_nettools/clock_skew.py:316-322 | the earlier of two datetimes has the smaller instant |
| NearestYear.DeviceDatetimeNear | src/agent_nettools/clock_skew.py:291-324 | the loop over the three years computes the earliest closest candidate |
| NearestYear.NearestOfTheThreeYears | src/agent_nettools/clock_skew.py:312-324 | the result is a valid candidate of the three years, none is closer, no earlier one as close, and nothing is found only when no year has the date |
| NearestYear.YearIsRecovered | src/agent_nettools/clock_skew.py:291-324 | dropping the year of any instant less than 182.5 days from the reference and searching returns that instant, across year ends and on 29 February |
| NearestYear.OrdinaryDateIsFoundNearby | src/agent_nettools/clock_skew.py:291-324 | any date other than 29 February is found within 183 days, for references in years 2 to 9998 |
| NearestYear.LeapDayIsFoundInLeapYears | src/agent_nettools/clock_skew.py:314-319 | 29 February is found exactly when one of the three years exists and is a leap year, hence never from year 1 or 9999 |
| NearestYear.FirstYearHasNoYearBefore | src/agent_nettools/clock_skew.py:314-319 | in year 1 the date found is within 183 days exactly when the year's own date is not further ahead |
| NearestYear.LastYearHasNoYearAfter | src/agent_nettools/clock_skew.py:314-319 | the same for year 9999 with the sides exchanged |
| NearestYear.FirstYearFails | src/agent_nettools/clock_skew.py:314-319 | from 1 January of year 1, 31 December is placed more than 183 days away |
| NearestYear.LastYearFails | src/agent_nettools/clock_skew.py:314-319 | from 31 December 9999, 1 January is placed more than 183 days away |
| ClockSkew.OffsetIsTheTrueDifference | src/agent_nettools/clock_skew.py:327-352 | a record's offset is the true clock difference in seconds whenever that is under half a year |
| ClockSkew.SummarizeDeviceOffsets | src/agent_nettools/clock_skew.py:425-454 | the comparable offsets, their number, median and extremes |
| ClockSkew.OffsetsInOrder | src/agent_nettools/clock_skew.py:425-450 | the offsets are exactly those of the comparable records, in their order |
| ClockSkew.SummaryDescribesTheOffsets | src/agent_nettools/clock_skew.py:445-454 | a summary counts the offsets and gives their middle, also of an even number, and their least and greatest; without an offset it gives none of these |
| ClockSkew.RecordOrderDoesNotMatter | src/agent_nettools/clock_skew.py:425-454 | reordering a device's records leaves its summary unchanged |
| Medians.SortIsAscendingPermutation | src/agent_nettools/clock_skew.py:451 | the order the median is read from is ascending and has the same elements |
| Medians.MedianIsInTheMiddle | src/agent_nettools/clock_skew.py:451 | the median is the middle of any ascending arrangement, or halfway between the two middles |
| Medians.MajorityHoldsTheMedian | src/agent_nettools/clock_skew.py:451 | an interval with more than half of the offsets contains their median |
| ClockSkew.AssessClockSkew | src/agent_nettools/clock_skew.py:592-618 | one summary per device, in order, with the bound |
| ClockSkew.SpanIsTheWidestGap | src/agent_nettools/clock_skew.py:508-544 | the span is absent exactly below two evaluated devices, bounds the gap of every pair, and the furthest pair attains it |
| ClockSkew.StatusExactly | src/agent_nettools/clock_skew.py:508-530 | skew is detected exactly when two evaluated devices have medians more than the bound apart, and not evaluated exactly when fewer than two devices are |
| ClockSkew.MajorityInBoundNeverDetected | src/agent_nettools/clock_skew.py:508-530 | if every evaluated device has a majority of offsets in one interval within the bound, the status is never skew_detected |
| ClockSkew.SharedReferenceCancels | src/agent_nettools/clock_skew.py:508-530 | a constant added to every offset leaves span and status unchanged |
| ExpansionCache.Cache.Sweep | mcp_server/staged_surface.py:98-101 | exactly the unexpired entries remain, in their order, and no answer changes |
| ExpansionCache.Cache.Store | mcp_server/staged_surface.py:86-105 | a store sweeps, appends and evicts the oldest beyond 32, and extends the history by one |
| ExpansionCache.Cache.Lookup | mcp_server/staged_surface.py:108-114 | a lookup returns the context exactly when it is among the last 32 stores and unexpired, for stores in expiry order; in any order it never invents and never misses such a context |
| ExpansionCache.EvictKeepsMirror | mcp_server/staged_surface.py:102-104 | evicting the oldest of a full cache never loses one of the last 32 stores |
| AgentLoop.RunAgentLoop | src/agent_nettools/agent_loop.py:559-846 | the loop ends, and its result is the transcript, calls, exchanges, usage, answer and elapsed time that the replies, tools and clock determine |
| AgentLoop.TakeTurn | src/agent_nettools/agent_loop.py:691-805 | one reply adds its usage, one exchange, its messages and its tool results to what was recorded |
| AgentLoop.SubmitBatch | src/agent_nettools/agent_loop.py:769-773 | a block starts exactly when the deadline has not passed at its own clock reading |
| AgentLoop.CollectBatch | src/agent_nettools/agent_loop.py:775-781 | results and audit entries in block order, skipped ones marked as errors |
| AgentLoop.EveryBlockIsSettled | src/agent_nettools/agent_loop.py:398-509 | every tool-use block of a reply, in block order and no other, has one audit entry and one result with its own id: what the tool returned or raised when it started before the deadline, and otherwise marked as skipped |
| AgentLoop.TextOfAReply | src/agent_nettools/agent_loop.py:512-513 | the text of a reply is its non-empty texts with line breaks between |
| AgentLoop.EndIsUnique | src/agent_nettools/agent_loop.py:664-817 | the inputs determine the number of model calls and the stop reason |
| AgentLoop.StoppingRunsDoNotFail | src/agent_nettools/agent_loop.py:716-720 | no inputs let a run both stop and fail |
| AgentLoop.BoundedAndCompleteOnlyAtEnd | src/agent_nettools/agent_loop.py:664-817 | at most max_iterations model calls and none past the deadline; complete exactly when the last reply stopped with end_turn, and each other reason exactly when the last reply, or the bound that was reached, says so |
| AgentLoop.ResultsAnswerTheirRequests | src/agent_nettools/agent_loop.py:736-784 | every message of results directly follows its assistant message and has one result per tool-use block of it, in block order, with the ids of those blocks |
| AgentLoop.RequestsAreAnswered | src/agent_nettools/agent_loop.py:736-784 | every tool-use turn is followed by exactly that message |
| AgentLoop.RepliesAreKept | src/agent_nettools/agent_loop.py:728-736 | the conversation starts with the question and keeps every reply that asks for more, in the order of the turns |
| AgentLoop.EveryCallIsRecorded | src/agent_nettools/agent_loop.py:775-784 | the audit list holds the entries of every turn's blocks, turn after turn, and nothing else |
| AgentLoop.StartedBlocksFormAPrefix | src/agent_nettools/agent_loop.py:769-773 | with a clock that never runs backwards the started blocks of a batch form a prefix |
| AgentLoop.NoCallAfterASkippedBlock | src/agent_nettools/agent_loop.py:664-682 | after a skipped block the model is not called again |
| AgentLoop.ExchangeIsItsReply | src/agent_nettools/agent_loop.py:700-714 | one exchange per model call, charged exactly its own reply's usage and naming the requests of its tool-use blocks in block order |
| AgentLoop.ExchangesAccountForUsage | src/agent_nettools/agent_loop.py:516-538 | the charges of all exchanges sum to the reported totals in every field |
| Evidence.FirstOn | src/agent_nettools/checks.py:754-767 | the scan stops at a record of the interface, or there is none |
| Evidence.FirstOnIsFirst | src/agent_nettools/checks.py:754-767 | and it is the first one, however the interface is spelled |
| Rungs.IsisAdjacencyExactly | src/agent_nettools/checks.py:637-676 | without an interface, isis_adjacency is broken exactly when the parsed table is empty or lists an adjacency whose state is not "Up" |
| Rungs.IsisAdjacencyOnExactly | src/agent_nettools/checks.py:678-695 | with one, it says what the first adjacency of that interface says |
| Rungs.BgpSessionStateExactly | src/agent_nettools/checks.py:339-377 | bgp_session_state says whether the first row about the peer is "Established" |
| Rungs.IsisNeighborUpExactly | src/agent_nettools/checks.py:751-848 | isis_neighbor_up is healthy exactly when the first adjacency of the interface says "Up"; broken exactly when it says something else or, with none, the interface is in the LLDP table or, with that silent too, its port is not "up" |
| Rungs.LdpSessionUpExactly | src/agent_nettools/checks.py:856-1057 | the same for ldp_session_up: healthy by a session that says "Oper", broken by one that does not or, with all earlier tiers silent, by discovery, the port, the configuration or the declared intent |
| Rungs.InitIsBroken | src/agent_nettools/checks.py:655-676 | an adjacency in "Init" is broken for both checks |
| Rungs.IsisIsACorroboration | src/agent_nettools/checks.py:703-848 | isis_neighbor_up is a chain of three tiers: adjacency, LLDP, the port itself |
| Rungs.LdpIsACorroboration | src/agent_nettools/checks.py:856-1057 | ldp_session_up is a chain of five tiers: session, discovery, port, configuration, declared intent |
| Rungs.LosingTiersWeakens | src/agent_nettools/checks.py:276-316 | a chain that loses tiers answers as before or is unevaluated |
| Rungs.SurvivesWhileItsTiersAreRead | src/agent_nettools/checks.py:276-316 | in any chain, a conclusive verdict survives exactly while its own tier and all silent tiers before it are read |
| Rungs.IsisNeighborUpDegrades | src/agent_nettools/checks.py:703-848 | making any sections missing or unparsed leaves the same result or unevaluated |
| Rungs.LdpSessionUpDegrades | src/agent_nettools/checks.py:856-1057 | the same for ldp_session_up |
| Rungs.IsisVerdictSurvivesExactly | src/agent_nettools/checks.py:703-848 | for any loss of evidence, a conclusive verdict survives exactly while the sections up to the one that decided it are parsed |
| Rungs.LdpVerdictSurvivesExactly | src/agent_nettools/checks.py:856-1057 | the same for ldp_session_up and its five sections |
| Rungs.IsisCitationsExactly | src/agent_nettools/checks.py:703-848 | a conclusive verdict rests on its citations alone exactly when the interfaces section did not decide it |
| Rungs.LdpCitationsExactly | src/agent_nettools/checks.py:856-1057 | the same for ldp_session_up |
| Rungs.BgpAndIsisDegrade | src/agent_nettools/checks.py:339-695 | the same for bgp_session_state and isis_adjacency |
| Rungs.IsisNeighborUpCitesParsed | src/agent_nettools/checks.py:703-848 | a conclusive verdict cites something, and only sections that parsed |
| Rungs.LdpSessionUpCitesParsed | src/agent_nettools/checks.py:856-1057 | the same for ldp_session_up |
| Rungs.BgpAndIsisCiteParsed | src/agent_nettools/checks.py:339-695 | the same for bgp_session_state and isis_adjacency |
| Rungs.SilentSectionsAreNotCited | src/agent_nettools/checks.py:777-837 | losing a section the verdict does not cite can lose the verdict |
| Rungs.AnySpellingIsTheSameQuestion | src/agent_nettools/interface_kind.py:230-233 | asking isis_neighbor_up about another spelling of the interface gives the same status |
| Rungs.AnySpellingIsTheSameLdpQuestion | src/agent_nettools/interface_kind.py:230-233 | and so does asking ldp_session_up |
| Rungs.BrokenBecause | src/agent_nettools/checks.py:759-837 | with no adjacency down and no port up without its line, a broken verdict means an unlisted adjacency that is cabled or taken down |
| Health.CollectRuleFindings | src/agent_nettools/checks.py:1838-1871 | the findings of all rules in rule order, with the instance's severity overriding the rule's |
| Health.Summarize | src/agent_nettools/checks.py:1925-1930 | the folded severity and the four counts |
| Health.EvaluateDevice | src/agent_nettools/checks.py:1838-1949 | the whole device verdict from evidence and inventory entry |
| Health.FindingsExactly | src/agent_nettools/checks.py:1465-1923 | a verdict has exactly the findings that the fields of the evidence and the inventory entry call for, rule by rule, with their severities, intents and subjects |
| Health.FlaggedInOrder | src/agent_nettools/checks.py:1487-1613 | a rule over records has one fragment per offending record, in record order |
| Health.VerdictLists | src/agent_nettools/checks.py:1875-1882 | the unevaluated and the unsupported intents are exactly those of the four that failed or that the platform does not offer, in order and each once |
| Health.WorstInWords | src/agent_nettools/checks.py:1327-1343 | critical outweighs unreachable, which outweighs a warning, which outweighs a remark |
| Health.CountsAreHowMany | src/agent_nettools/checks.py:1925-1930 | each count is the number of findings of its severity |
| Health.WorstAtLeast | src/agent_nettools/checks.py:1925-1930 | the verdict's severity is at least every finding's |
| Health.WorstIsFound | src/agent_nettools/checks.py:1925-1930 | a severity above ok is that of some finding |
| Health.FindingsCountUp | src/agent_nettools/checks.py:1925-1930 | the four counts sum to the number of findings |
| Health.FindingSeverities | src/agent_nettools/checks.py:1813-1830 | no finding is ok, and critical findings come from exactly three rules |
| Health.FindingsOfRule | src/agent_nettools/checks.py:1850-1871 | a rule's findings in the verdict are exactly the fragments it reported |
| Health.IsisRungAgreesWithHealth | src/agent_nettools/checks.py:655-676 | isis_adjacency with no interface is broken exactly when an isolation or not-Up rule fires |
| Health.BgpRungAgreesWithHealth | src/agent_nettools/checks.py:339-377 | bgp_session_state and the session rule agree on a peer exactly when its rows are not contradictory; the rung never accuses alone |
| Health.UniqueNeighborsAgree | src/agent_nettools/checks.py:1506-1532 | with unique neighbors bgp_session_state is broken exactly when the session rule fires for the peer |
| Health.TwoRowsDisagree | src/agent_nettools/checks.py:356-375 | a peer listed as Established and again as Idle is healthy for the rung and down for the rule |
| Health.CriticalExactlyWhenRoutingIsDown | src/agent_nettools/checks.py:1465-1532 | device severity is critical exactly when the parsed IS-IS table is empty or lists an adjacency that is not "Up", or the parsed BGP table lists a session that is not "Established" |
| Health.BrokenRungMeansCritical | src/agent_nettools/checks.py:1838-1949 | a broken BGP or IS-IS rung always makes the device critical |
| Health.QuietMeansAssessed | src/agent_nettools/checks.py:1413-1437 | below warning, every health intent was collected and parsed, or the platform does not offer it |
| Health.QuietDeviceBlindSpot | src/agent_nettools/checks.py:1591-1613 | on a quiet device a broken adjacency was never listed, and is cabled or on a port taken down |
| Fabric.EvaluateFabric | src/agent_nettools/checks.py:1952-1997 | verdicts in dictionary order, fabric severity, tally and blind devices |
| Fabric.OneEntryPerDevice | src/agent_nettools/checks.py:1968-1976 | one entry per device name, and only for devices with evidence |
| Fabric.VerdictsAreTheDevices | src/agent_nettools/checks.py:1968-1976 | with unique names the verdicts are exactly those of the devices with evidence |
| Fabric.LastOfANameDecides | src/agent_nettools/checks.py:1968-1975 | of several devices with one name the last decides what is said under it |
| Fabric.FabricBoundsEveryDevice | src/agent_nettools/checks.py:1968-1976 | no device is worse than the fabric |
| Fabric.FabricIsSomeDevice | src/agent_nettools/checks.py:1968-1976 | the fabric's severity is some device's, or ok |
| Fabric.FabricSeverityInWords | src/agent_nettools/checks.py:1327-1343 | the fabric's severity is the gravest of any device with evidence |
| Fabric.Tally | src/agent_nettools/checks.py:1981-1986 | the counts per severity sum to the number of verdicts |
| Fabric.TallyIsHowMany | src/agent_nettools/checks.py:1981-1986 | each count is the number of verdicts of its severity |
| Fabric.FabricCriticalExactly | src/agent_nettools/checks.py:1952-1997 | the fabric is critical exactly when routing is down on some device with evidence |
| Fabric.QuietFabricIsAssessed | src/agent_nettools/checks.py:1952-1997 | a fabric below warning has assessed every health intent of every device with evidence |
| Fabric.QuietFabricHasNoBlindDevice | src/agent_nettools/checks.py:1990-1996 | a fabric below warning lists no device with an unevaluated intent |
| Boundary.ClassifyErrors | mcp_server/boundary.py:309-347 | every error in order, rebuilt |
| Boundary.DetailIsReplaced | mcp_server/boundary.py:324-346 | an error comes out as the command before its first ": " and the phrase of the first kind matching the whole text, with nothing of the detail |
| Boundary.FirstKindWins | mcp_server/boundary.py:339-345 | the first matching kind decides; with none the detail is withheld |
| Boundary.WithoutDetailOnlyThePhrase | mcp_server/boundary.py:326-346 | an error without a ": ", or with nothing before or after the first one, comes out as the phrase alone |
| Boundary.Sanitize | mcp_server/boundary.py:350-387 | the recursive walk with its local dictionary computes the sanitised tree |
| Boundary.OnlyDeclaredTextMatters | mcp_server/boundary.py:296-387 | trees of any depth that differ only in command outputs of equal size, numbers of unread lines, or error details of the same command and kind sanitise to the same tree |
| Boundary.WalkedPathsAreKept | mcp_server/boundary.py:363-387 | everything reached by a path without a handled field is still there, and leaves there are unchanged |
| Boundary.CommandsComeOutAsSizes | mcp_server/boundary.py:296-306 | a table of commands comes out under "commands_withheld", each output replaced by its number of characters and lines |
| Boundary.RawTextComesOutAsACount | mcp_server/boundary.py:368-371 | other raw text comes out as the number of listed lines, or one |
| Boundary.ErrorsAreRebuiltAndTextIsQuoted | mcp_server/boundary.py:372-379 | a list of errors is rebuilt error by error under its own key, and free text is quoted under its own |
| Boundary.KeysAreKeptOrRenamed | mcp_server/boundary.py:363-381 | the output's keys are the input's, raw-text ones renamed; nothing is dropped or invented |
| Boundary.CollisionExactly | mcp_server/boundary.py:364-371 | of a raw-text field and a field already named like its record, the later one is kept |
| Boundary.RawKeysNeverCross | mcp_server/boundary.py:92 | no field at any depth of the output has a raw-text key, except that the table of output sizes is keyed by the commands themselves |
| Coverage.SegmentsKeepBytes | tools/measure_parser_coverage.py:60-61 | splitting into lines loses no byte |
| Coverage.SegmentsAreLines | tools/measure_parser_coverage.py:60 | the segments joined are the text, none has a line break inside, and all but the last end in one |
| Coverage.CharactersByCode | tools/measure_parser_coverage.py:58-63 | which characters break a line, which are stripped, and how many bytes each takes |
| Coverage.StripLeaves | tools/measure_parser_coverage.py:63 | stripping removes the space at both ends and all of it |
| Coverage.WalkAllocates | tools/measure_parser_coverage.py:60-97 | each segment's bytes go to one bucket and each non-blank line to one line bucket |
| Coverage.WalkClaims | tools/measure_parser_coverage.py:69-73 | what is claimed is the multiset intersection of consumed and present lines |
| Coverage.EveryCaseBalances | tools/measure_parser_coverage.py:54-108 | for every text the byte buckets sum to the raw bytes with a zero correction, the line buckets to the non-blank lines, and the structured lines to that intersection |
| Coverage.EveryLineIsFiled | tools/measure_parser_coverage.py:54-107 | for every text, each bucket counts exactly the lines that belong in it and their bytes: a line is structured while fewer like it came before than were consumed, and otherwise goes by the common rules and then by the first custom rule that matches; what no rule matches is sampled, and a line put off has its reason counted |
| Coverage.ClaimedIsTheMinimum | tools/measure_parser_coverage.py:69-73 | each distinct stripped line is structured the smaller of its consumed count and its occurrences |
| Coverage.Allocate | tools/measure_parser_coverage.py:56-97 | the loop over lines computes that walk |
| Coverage.Counts.Add | tools/measure_parser_coverage.py:40-42 | every field is added in place, also to itself |
| Coverage.CountCase | tools/measure_parser_coverage.py:54-107 | one case's counter, balanced |
| Coverage.Auditor.Finalize | tools/measure_parser_coverage.py:54-109 | one case is charged to the current parser, the side counters grow by the walk's, and every parser's counter stays the sum of its cases |
| Coverage.Auditor.Total | tools/measure_parser_coverage.py:202-205 | the report's total is the sum over all cases and is balanced |
| Coverage.ParsersAddUp | tools/measure_parser_coverage.py:202-205 | adding the parsers' totals gives the sum over all cases |
| Coverage.EveryColumnIsSummed | tools/measure_parser_coverage.py:40-42 | each of the thirteen columns of the total is the sum of that column over all cases |
| FabricAudit.MtuMismatches | src/agent_nettools/audit.py:124-172 | the unordered links found are exactly the resolvable ones whose two known MTUs differ, each once and with the MTUs of its own ends |
| FabricAudit.MismatchedInWords | src/agent_nettools/audit.py:162-166 | a link is mismatched exactly when both ends printed an MTU, neither is blank, and they differ |
| FabricAudit.MtuIsThePorts | src/agent_nettools/audit.py:132-137 | an end's MTU is what the first row of its port says, in the first port table of its device |
| FabricAudit.SameLinksSameFindings | src/agent_nettools/audit.py:151-161 | two runs whose inputs tell of the same links, each row from either end, find the same links and make equally many findings |
| FabricAudit.BuildHostnameMap | src/agent_nettools/topology.py:150-172 | the loop over the devices: an inventory name replaces what stood there, a hostname only fills a gap |
| FabricAudit.ResolvesToADeviceOfThatName | src/agent_nettools/topology.py:150-172 | a reported name, stripped and folded, is resolved to a device that goes by it, and to none only when no device does |
| FabricAudit.AuditMtus | src/agent_nettools/audit.py:124-172 | the whole rule, with the resolver built from the devices it judges, answers for that resolver |
| FabricAudit.OneMapExactly | src/agent_nettools/topology.py:150-172 | the map is the same in every order of the devices exactly when no two inventory names differ only in case and no two devices share a hostname that is not an inventory name |
| FabricAudit.OrderDoesNotMatter | src/agent_nettools/audit.py:124-172 | under that condition two runs that visit the devices, their LLDP rows or their ports in different orders, each with its own resolver, find the same links and make equally many findings |
| FabricAudit.SharedHostnameMatters | src/agent_nettools/topology.py:166-171 | with two devices of one hostname the same evidence shows a mismatch in one order and none in the other |
| FabricAudit.TheOtherEndReportsTheSameLink | src/agent_nettools/audit.py:157-161 | a row and its mirror at the other end are one link |
| FabricAudit.EachCableOnceExactly | src/agent_nettools/audit.py:139-161 | each cable is reported once exactly when no mismatched cable is spelled in two ways |
| FabricAudit.OneSpellingReportsOnce | src/agent_nettools/audit.py:157-161 | when no port is spelled in two ways by the rows, each cable is reported once |
| FabricAudit.OneCableTwice | src/agent_nettools/audit.py:157-161 | two devices printing one cable in two spellings get it reported twice |
| FabricAudit.DuplicateRouterIds | src/agent_nettools/audit.py:97-121 | one finding per router-ID with more than one owner, naming all its owners |
| FabricAudit.ClashExactly | src/agent_nettools/audit.py:97-121 | two devices are reported together exactly when both announce the same router-ID |
| EventIdentity.AcceptsExactlyTheSameIdentity | src/agent_nettools/event_identity.py:17-39 | an update is accepted exactly when key set and immutable fields are unchanged, also for payloads of both kinds |
| EventIdentity.AcceptsInFields | src/agent_nettools/event_identity.py:6-39 | a syslog event may change only received_at, a campaign only its phase, outcome, rollback deadline, ticket, incident and event ids, and any other payload nothing |
| EventIdentity.AcceptanceIsAnEquivalence | src/agent_nettools/event_identity.py:17-39 | acceptance is reflexive, symmetric and transitive |
| EventIdentity.ChainKeepsIdentity | src/agent_nettools/event_identity.py:17-39 | over any chain of accepted updates the key set and every immutable field are the first payload's |

## Left out

- The admission directory's absence and the fail-open path, a crash between truncating and rewriting a file, unreadable lines and damaged JSON: behaviour of the environment; files hold what was last written.
- Event identities containing a line break, undecodable bytes or nothing but white space: the claim file would not read them back as written, or would read them as a bare stamp; the model stores the identity itself.
- Floating point: stamps, offsets and budgets are reals, instants are whole microseconds. The comparison of distances in seconds is modelled in microseconds, and rounding when ingest nanoseconds become a datetime is outside the model.
- Parsing of device and ingest time stamps, interface names, neighbor names and device output: given as parse results or as arbitrary functions.
- The slot semaphore is a state machine over values and not a class, because its subject is the interleaving of many processes; sleeping takes no particular time, and the deadline is the only bound on waiting.
- Termination of waiting: an attempt stops retrying only when the clock reaches its deadline, and nothing makes the modelled clock advance.
- The agent loop's thread pool, its per-call timeouts and its provider check: each tool's execution is an arbitrary value, and only submission and collection order are kept. The audit entries' error details and the static parts of the result are not modelled. The conversation, local in the source, is part of the modelled result.
- Verdict reasons, finding messages and expected and actual values: wording; verdicts keep status, subject and citations, findings keep rule, severity, intent and subject.
- The other rung checks: bgp_transport and route_present read one section each; interface_state falls back between sources and is not monotone in its evidence.
- Metrics recorded by the device verdict, the platform name, and the sorted order of the blind-device list, which is a set here.
- Fabric.FabricIsSomeDevice: speaks of all devices visited; with repeated names in the device list an overwritten verdict still counts towards the fabric's severity, as in the source.
- Tuples in sanitised payloads and keys that are not strings: payloads are JSON trees.
- Boundary.OnlyDeclaredTextMatters: free-text fields are quoted and cross the boundary, so two trees must agree on them.
- FabricAudit.MtuMismatches: the message names the two ends in the order of the first reporter; findings are compared as unordered links.
- FabricAudit.OrderDoesNotMatter: asks for unambiguous device names, because `SharedHostnameMatters` shows that order matters without; ports may change order only where no port has two rows, since the first row decides.
- BudgetRuns.BudgetsHoldInEveryRun: promises no device bound for event runs of a device sanitised to "idempotency", because `OneClaimResetsThatDevice` shows that there is none.
- BudgetRuns.DeviceBudgetIsNeverLate: is about devices whose log is not the claim file, for the same reason.
- EventWindows.FullDeviceWindowExactly: leaves out device limits above the fabric's, for which one late start need not overfill the window; that no lateness or a fabric limit of one is enough is proved for them too (`WholeWindow`).
- SlotScans.EverySlotWasBusy: is about runs in which slot files can be opened, since a file that cannot is passed over like a busy one.
- EventIdentity.AcceptanceIsAnEquivalence: payload values have no NaN, which is not equal to itself; the source refuses an unchanged payload with a NaN in an immutable field.
- SharedFiles.IdentitiesClaimedOncePerWindow: leaves out runs with event-run checks of that device, because `OneCheckWipesTheClaims` shows that the bound fails there.
- The remaining audit rules and the fold in run_audit are single scans without interaction.
- Config diffing, campaign reporting, persistence helpers, the command line, SSH and HTTP transports, log and metric stores: plumbing around the parts modelled here.
