# Verified models of the solver tooling and smoke harness in `bin/`

A Dafny model of the deterministic cores of the scripts in `bin/`: the container simulator, the log
parsers, the configuration and environment transformations, and the stateful protocols of the smoke
harnesses, with proofs of what they promise over all inputs, all runs and all interleavings.
`dafny verify dfyconfig.toml` checks everything.

Where the original updates state step by step, the model does too: loops over local variables,
dictionaries and lists as fields or locals of type `map` and `seq`, classes for module or object state.
Each such method is proved against reference definitions written as functions and predicates, and the
promises are then proved about those. Numbers are exact reals or unbounded integers.

| files | what they model |
|---|---|
| `Backtest.dfy`, `ProdColdStarts.dfy` | `bin/container-backtest.py`: one serial server with cold boots, a sleep timer and billed intervals |
| `PayloadScan.dfy` | `bin/engine-smoke.py`: the scanner that finds the end of a JSON object (RFC 8259) in a log message |
| `SolverCalls.dfy`, `SolverCallLaws.dfy`, `SplitTrace.dfy`, `RowColumns.dfy`, `FetchConservation.dfy`, `UsageCsv.dfy` | `bin/solver-usage-backfill.py`: deduplicating, ordering, grouping and splitting log lines, and the keyed CSV merge |
| `Toml.dfy`, `RunnerConfig.dfy` | `bin/_smoke_identity.py`: the TOML printer and loader of the runner's config |
| `IdentityTokens.dfy`, `Registry.dfy`, `RegistryLaws.dfy`, `ComposedRuns.dfy`, `RunDecisions.dfy` | `bin/_smoke_registry.py`: whether a run is composed, and its scrubbed environment and command line |
| `Seeding.dfy`, `SeedingLaws.dfy`, `SchedulerSeeding.dfy` | `bin/_smoke_identity.py`: seeding identities from the environment |
| `ExportBlocks.dfy`, `MintedBlocks.dfy`, `MintAndSeed.dfy` | `bin/mu-smoke-login.py`: the merge of shell export blocks, the block of one minted letter, and what seeding reads after it |
| `Availability.dfy` | `bin/_smoke_lib.py`: Graph's availability string against busy blocks |
| `CaptureBounds.dfy`, `DatetimeBounds.dfy` | `bin/solver-capture-pull.py`: date and datetime bounds as text comparisons |
| `OccurrenceBackfill.dfy`, `BackfillOrder.dfy` | `bin/backfill-occurrence-date.py`: planning a deduplication for a UNIQUE index |
| `MailRelay.dfy` | `bin/poll-smoke.py`: the mailbox circuit breaker |
| `LoginHistory.dfy`, `LoginRestore.dfy` | `bin/identity-smoke.py`: the drift step and its compare-and-swap restore |
| `Wrappers.dfy`, `Sorting.dfy`, `Text.dfy` | optional values, stable sorting and filtering, text order, trimming and decimal printing |

## What turned out not to hold as one might read it

Each of these has its exact condition, for all inputs, and an input that shows it.

- **Prod-only cold starts.** `cold_all` never grows with the sleep timer, but the reported `cold`, which
  counts prod calls, can. It cannot, on all demands, exactly when no call after the first is from another
  environment and followed by a prod call (`ProdColdStarts.ProdColdNeverGrowsIff`; a demand on which it
  grows is in `ProdColdStarts.CrossingCounts`).
- **Call ids.** A line without a request id prints its call ids with `None`. They are distinct exactly if
  no recorded fetch line without a request id meets one of a request whose id is the text "None"
  (`SolverCallLaws.CallIdsDistinctIff`, `SolverCallLaws.CallIdsClashExample`).
- **The count of new rows** is right exactly if the rows not yet in the file have distinct keys
  (`UsageCsv.NewPlusOldIsTotalIff`). Rows as paired have them for every file exactly if no call ids clash
  in that way (`UsageCsv.PairedRowsCountRightIff`).
- **Saving and loading** gives the normal form exactly if no written value holds a control character (tab
  excepted); otherwise the saved file does not load (`RunnerConfig.SaveThenLoad`,
  `RunnerConfig.LineBreakExample`). An unknown provider is written and then refused by the loader. A legacy
  email primary is stripped when saved and not when loaded (`RunnerConfig.LegacyFileLoadsAlike`,
  `RunnerConfig.SpaceBeforeEmailExample`).
- **Availability blocks** are non-empty, disjoint and inside the window exactly if no busy character lies
  past the window (`Availability.BlocksTidyIff`, `Availability.PastWindowExample`); which instants they
  cover is right for every view.
- **Datetime bounds** are compared as text with millisecond timestamps. Outside the bound's own second they
  are right. Inside it, `DatetimeBounds.SinceRightIff` and `DatetimeBounds.UntilRightIff` name the rows that
  go wrong, for every accepted form: any number of fraction digits, with `Z` or without. As a result a
  `--since` is right for every row exactly with a three-digit fraction, or a shorter one and no `Z`, or a
  longer one whose further digits are zeros (`DatetimeBounds.SinceExactIff`); an `--until` exactly with
  three digits and `Z`, the form of the timestamps themselves (`DatetimeBounds.UntilExactIff`). So
  `…:03Z` as `--since` drops that whole second, and `…:03` as `--until` drops even its first millisecond
  (`DatetimeBounds.SinceExample`, `DatetimeBounds.UntilExample`). A bound without `Z` is taken to name the
  same instant. The documentation of the options says the bounds are inclusive, and a comment in
  `_until_bound` that datetimes are exact; the model follows the code.
- **Creating the UNIQUE index** succeeds for every table in which rows without timing carry no date, and in
  general exactly if no such row brings a date that another row has or gets
  (`OccurrenceBackfill.IndexHoldsIff`, `OccurrenceBackfill.PassedOverExample`).
- **Planning the backfill again** gives the same stamps, but in the same order exactly if survivors come in
  the order of their groups' first rows (`BackfillOrder.SameOrderIff`, `BackfillOrder.OutOfStepExample`).
  The stamps are independent updates, so nothing depends on it.
- **A default client id** is not printed in a letter's block, so an older `<L>_CLIENT_ID` of the shell
  survives a mint and is seeded with the new tokens. The minted client id is found exactly if it was
  printed, or the shell had none or the same (`MintAndSeed.MintedClientFoundIff`,
  `MintAndSeed.StaleClientExample`).
- **A sign-in before the drift write** is lost: the restore brings back the address read in the preflight.
  The last sign-in's address remains exactly if no drift write came after it, or if it is that address
  (`LoginHistory.LastSignInRemainsIff`, `LoginHistory.LostSignInExample`).
- **A drift write that lands late.** If the drift UPDATE raises while its statement is still under way, the
  restore may confirm that the row is clean before the statement takes effect. The drift value then stays,
  unreported. That is the only way: it is left unreported exactly if it landed after the confirming read
  (`LoginRestore.IdentitySmoke.Run`, `LoginRestore.UnreportedExample`).

## Model

| member | source | states |
|---|---|---|
| Backtest.Serve | bin/container-backtest.py:61-78 | the loop over arrivals gives every call the cold flag and latency of the finish-time recurrence, and closes exactly the intervals of the reference spans |
| Backtest.Simulate | bin/container-backtest.py:54-85 | the whole report: calls sorted stably by arrival, prod and overall counts, one interval per cold start, billed seconds, and from arrival to finish the latencies of prod's api calls |
| Backtest.DelayedByAtMostOneBoot | bin/container-backtest.py:61-76 | against an instance that never sleeps, every finish is at most one boot later, however many cold starts there were |
| Backtest.AlwaysOnIsMaximum | bin/container-backtest.py:65-66 | the never-sleeping finish is the largest of "arrive at j, then serve j to i" |
| Backtest.Coupling | bin/container-backtest.py:61-76 | the invariant between two runs with different timers: finish times within one boot, and a later finish in the short-timer run only with strictly more cold starts |
| Backtest.LongerSleepFewerColdStarts | bin/container-backtest.py:54-85 | for the same calls and boot, a longer sleep timer never gives a larger `cold_all` |
| Backtest.BilledExactly | bin/container-backtest.py:63-85 | billed seconds are all service, one boot per cold start, one final timer, and each gap capped by the timer |
| Backtest.FreeBootBillingMonotone | bin/container-backtest.py:54-85 | without boot time, billing never falls when the timer grows |
| Backtest.ServiceInOrder | bin/container-backtest.py:65-73 | service begins after arrival and after the previous finish |
| Backtest.SpansCoverService | bin/container-backtest.py:67-78 | billed spans are in order and disjoint, and each call arrives and is served inside the span its latest cold start opened |
| ProdColdStarts.ProdColdNeverGrowsIff | bin/container-backtest.py:79-84 | for which sequences of environments the prod-only `cold` never grows with the timer, on all demands: both directions |
| ProdColdStarts.CrossingRuns | bin/container-backtest.py:61-76 | a family of demands on which the two runs' finish times cross both ways and a call turns cold under the longer timer |
| PayloadScan.PayloadAfter | bin/engine-smoke.py:303-332 | the three-variable scan decodes the first brace-balanced object at or after the start, and gives nothing exactly when there is none |
| PayloadScan.FirstObjectUnique | bin/engine-smoke.py:307-328 | a text has at most one such object, so the cut is determined |
| PayloadScan.PayloadOfObject | bin/engine-smoke.py:303-332 | for every JSON object text, after a prefix without `{` and before any suffix, exactly that text is decoded, whatever its strings hold |
| SolverCalls.GroupEvents | bin/solver-usage-backfill.py:94-107 | one pass over the ordered events builds each request's deduplicated lines, requests in order of first occurrence |
| SolverCalls.SplitCalls | bin/solver-usage-backfill.py:111-123 | the loop that rewrites the last call computes the split of a request's lines |
| SolverCalls.PairEvents | bin/solver-usage-backfill.py:92-146 | the rows are those of the requests' calls, numbered from 1, in text order of `at`; the next three rows say what they report |
| RowColumns.PrintedCallsReported | bin/solver-usage-backfill.py:124-146 | for printed calls of a request, one row each: `at` and trigger of the first attempt, status and uptime of the last, times and verdict of the diagnostics line or else the last attempt's time and UNSAT exactly on 422; in the order of the calls |
| RowColumns.RowsReportCalls | bin/solver-usage-backfill.py:124-146 | the same for all events, over the calls that a request's lines split into |
| RowColumns.RowsInOrder | bin/solver-usage-backfill.py:145 | the rows are sorted by `at` |
| SolverCalls.SplitShaped | bin/solver-usage-backfill.py:115-123 | no call is empty, only a first fetch may be attempt 1, and a call begins only with attempt 1 or after a closed call |
| SolverCalls.SplitOfLines | bin/solver-usage-backfill.py:115-123 | splitting the printed lines of any such list of calls gives the list back |
| SolverCalls.SplitConserves | bin/solver-usage-backfill.py:115-123 | every fetch line lands in exactly one call, in order, and nothing is invented |
| SplitTrace.SplitKeeps | bin/solver-usage-backfill.py:115-123 | the lines of the calls are the fetch lines and the first diagnostics line after a fetch line, in order |
| SplitTrace.SplitDetermined | bin/solver-usage-backfill.py:115-123 | no other well-shaped list of calls has these lines |
| SplitTrace.DedupedAreFirst | bin/solver-usage-backfill.py:101-105 | of lines with the same key the first counts |
| RowColumns.SameLineIff | bin/solver-usage-backfill.py:102 | which lines have the same key: the same id, or without ids the same timestamp and text |
| SolverCallLaws.PairingInvertsPrinting | bin/solver-usage-backfill.py:92-123 | calls printed with attempts 1 to k and an optional diagnostics line, interleaved with other requests, are recovered exactly |
| SolverCallLaws.GroupsAgree | bin/solver-usage-backfill.py:94-107 | reordering or redelivering events changes no request's recorded lines |
| SolverCallLaws.PairingIgnoresDelivery | bin/solver-usage-backfill.py:92-146 | the multiset of rows does not depend on delivery, when ids identify lines and lines of a request do not tie |
| SolverCallLaws.CallIdsDistinctIff | bin/solver-usage-backfill.py:124-134 | call ids are distinct exactly if no recorded fetch line without a request id meets one of the request "None" |
| SolverCallLaws.CallIdsClashExample | bin/solver-usage-backfill.py:128-134 | two fetch lines whose rows get the same call id |
| FetchConservation.AttemptsAreFetches | bin/solver-usage-backfill.py:94-137 | over the whole stream, the `attempts` of all rows add up to the deduplicated fetch lines |
| UsageCsv.MergeCsv | bin/solver-usage-backfill.py:183-198 | what the merged file holds for every key: the latest new row of its environment and call id, or else the row that was there; the printed number of new rows, and the total |
| UsageCsv.UpsertKeepsOthers | bin/solver-usage-backfill.py:190-191 | a stored row whose key no new row has is kept as it was |
| UsageCsv.MergeIdempotent | bin/solver-usage-backfill.py:183-198 | merging the same rows again changes nothing and counts nothing as new |
| UsageCsv.NewPlusOldIsTotalIff | bin/solver-usage-backfill.py:189-198 | new + old = total exactly if the new rows' keys are distinct; otherwise the count is too large |
| UsageCsv.PairedRowsCountRightIff | bin/solver-usage-backfill.py:183-198 | for paired rows new + old = total, whatever the file held, exactly if no call ids clash |
| Toml.EscapedCons | bin/_smoke_identity.py:129-133 | the two successive replacements escape every character on its own |
| Toml.ReadsBackIff | bin/_smoke_identity.py:129-133 | a printed document of distinct bare names reads back as itself if its values are clean, and is refused otherwise |
| RunnerConfig.SaveConfig | bin/_smoke_identity.py:241-279 | the lines written, or the refusal of a junk primary, are those of the config's tables |
| RunnerConfig.SaveThenLoad | bin/_smoke_identity.py:150-279 | load after save is the normal form, or the refusal of an unknown provider; a malformed file if a written value holds a control character |
| RunnerConfig.NormalIsFixed | bin/_smoke_identity.py:212-238 | the normal form is its own normal form |
| RunnerConfig.NormalKeeps | bin/_smoke_identity.py:150-279 | the normal form keeps every letter's address and every setting, and fills blanks only |
| RunnerConfig.PrimaryNormalised | bin/_smoke_identity.py:212-238 | which letter a Microsoft primary stands for, when it is refused, and what it does to the cast |
| RunnerConfig.LegacyFileLoadsAlike | bin/_smoke_identity.py:180-191 | the text of an older file, with an email primary, loads as the saved config does exactly if its values are clean and the email is trimmed or letter a is set |
| RunnerConfig.DerivedInviteeNotFrozen | bin/_smoke_identity.py:112-122 | after save and load both unset invitees still follow any later change of the Google cast |
| Registry.ComposeEnv | bin/_smoke_registry.py:713-853 | the step-by-step composition is a decision, an argument vector, and the scrubbed environment under a layer that does not depend on it; the next seven rows say which |
| RunDecisions.FirstCauseDecides | bin/_smoke_registry.py:727-835 | the problem that is reported is the first cause there is, and a run is composed exactly if there is none |
| RunDecisions.CommandLine | bin/_smoke_registry.py:836-853 | the command line, part by part: script, the mode's arguments, provider, extra arguments, and a level selection exactly if it says something |
| RunDecisions.SmokeVarIff | bin/_smoke_registry.py:471-515 | which variables are scrubbed |
| ComposedRuns.RunCarriesIdentities | bin/_smoke_registry.py:523-549 | with distinct prefixes, SCHEDULER included, the environment holds under each prefix that identity's bearer, refresh, address, client id and mint time, and nothing left over |
| ComposedRuns.PrimaryIsConfigured | bin/_smoke_registry.py:613-631 | a primary stands for the letter the config names |
| ComposedRuns.RunHasTarget | bin/_smoke_registry.py:743-746 | the target's own variables |
| ComposedRuns.RunHasExtras | bin/_smoke_registry.py:792-834 | each extra is there exactly when the harness asks for it, with the config's value; unset invitees are Google accounts B and C |
| RegistryLaws.Noninterference | bin/_smoke_registry.py:727-853 | environments that differ in smoke variables only give the same run, or the same problem |
| RegistryLaws.ComposedEnvironment | bin/_smoke_registry.py:727-853 | smoke variables are exactly the placed ones, other variables are inherited, no `MS_<L>_*` name survives, the target's variables are the target's |
| RegistryLaws.ComposingTwiceForgets | bin/_smoke_registry.py:727-743 | composing inside a composed environment is composing from the shell |
| RegistryLaws.ProjectionsCommute | bin/_smoke_registry.py:523-549 | with distinct prefixes, the order of the identities does not matter |
| Seeding.ClassifySchedulerSlot | bin/_smoke_identity.py:369-386 | the first seat of the cast, Google before Microsoft, whose address is the account, stripped and case-folded |
| Seeding.SeedIdentities | bin/_smoke_identity.py:389-492 | what every slot holds, which slots are partial and what they miss, and the warnings |
| SeedingLaws.OccupiedIsNotPartial | bin/_smoke_identity.py:419-490 | occupied and partial slots are disjoint, and a complete letter triple wins |
| SeedingLaws.ConfigAnchorsEmail | bin/_smoke_identity.py:423-427 | a config address is never displaced by one from the environment |
| SeedingLaws.SeedingInvertsProjection | bin/_smoke_identity.py:419-436 | seeding a projected Google identity gives it back exactly if it is clean, whatever else is exported |
| SeedingLaws.SeedOfProjection | bin/_smoke_registry.py:538-548 | from a clean projection alone, that identity is seeded and nothing else is reported |
| SchedulerSeeding.SeedingInvertsScheduler | bin/_smoke_identity.py:453-481 | seeding a SCHEDULER projection gives its tokens back exactly if they are clean and their slot is the first seat with that address |
| SchedulerSeeding.SeededOrPartial | bin/_smoke_identity.py:415-450 | which slots are seeded, which are partial, and what a complete letter's slot holds |
| SchedulerSeeding.TripleNeedsAll | bin/_smoke_identity.py:453-481 | when the SCHEDULER triple is looked at, and which warning it causes |
| SchedulerSeeding.ClassifiedByAddress | bin/_smoke_identity.py:369-386 | an account's seat has that address, and an account without a seat is nobody's address |
| ExportBlocks.MergeExportBlocks | bin/mu-smoke-login.py:209-237 | one line per key in first-seen order with its latest value, or the failure on an unreadable line |
| ExportBlocks.UnreadableIff | bin/mu-smoke-login.py:227-230 | which lines cannot be read |
| ExportBlocks.MergedSameEffect | bin/mu-smoke-login.py:209-237 | in every shell, the merged lines do what all lines do in order |
| ExportBlocks.MergedNests | bin/mu-smoke-login.py:209-237 | merging merged lines with more lines is merging everything |
| ExportBlocks.MergeCorrect | bin/mu-smoke-login.py:209-237 | for blocks of well-formed lines the merge succeeds, reads back, and has the same effect in every shell |
| MintedBlocks.BuildExports | bin/mu-smoke-login.py:145-206 | fails exactly without an address; otherwise shell names, none twice, the host's lines and the letter's four first, and exactly the lines of host, letter, client id, supplied addresses and invitees |
| MintedBlocks.LatestBlockDecides | bin/mu-smoke-login.py:145-237 | in every shell, after earlier blocks and this one merged, each variable the block mentions is as it says |
| MintedBlocks.LatestHostDecides | bin/mu-smoke-login.py:172-177 | after any blocks, the last block's host decides the database id: no stale id survives |
| MintAndSeed.MintThenSeed | bin/mu-smoke-login.py:145-206 | in any shell, after any blocks and the letter's own, seeding finds the minted tokens, with the config's address where it has one |
| MintAndSeed.MintedClientFoundIff | bin/mu-smoke-login.py:185-186 | the minted client id is found exactly if it was printed, or the shell had none or the same |
| Availability.BusyFromAvailabilityView | bin/_smoke_lib.py:1281-1308 | one clamped block per busy character, in order |
| Availability.BlockIffBusySlot | bin/_smoke_lib.py:1299-1307 | the blocks are exactly the clamped half hours of the characters other than 0 and 4 |
| Availability.BlocksAreBusyTime | bin/_smoke_lib.py:1293-1308 | an instant of the window lies in a block exactly if its half hour is marked busy |
| Availability.BlocksTidyIff | bin/_smoke_lib.py:1299-1308 | blocks are non-empty, disjoint, in order and end by the window's end exactly if no busy character lies past it |
| CaptureBounds.NextDayIsSuccessor | bin/solver-capture-pull.py:170-171 | the day after is the immediate successor among valid dates, across month ends and leap days |
| CaptureBounds.NextDayIsNext | bin/solver-capture-pull.py:170-171 | its number in the proleptic Gregorian calendar is one more, and only 9999-12-31 has none |
| CaptureBounds.QueryConditions | bin/solver-capture-pull.py:158-186 | fails exactly on a bare `--until` that is no date or the last date; otherwise selects exactly the live rows that both bounds admit, bare dates as whole days |
| CaptureBounds.BareDatesSelectDays | bin/solver-capture-pull.py:158-186 | bare dates select exactly the live rows dated in the inclusive range, whatever follows the date; only 9999-12-31 has no upper bound |
| DatetimeBounds.SinceRightIff | bin/solver-capture-pull.py:71-182 | for every accepted datetime as lower bound, exactly which rows it gets wrong |
| DatetimeBounds.UntilRightIff | bin/solver-capture-pull.py:71-186 | for every accepted datetime as upper bound, exactly which rows it gets wrong |
| DatetimeBounds.SinceExactIff | bin/solver-capture-pull.py:71-182 | which forms of lower bound are right for every row |
| DatetimeBounds.UntilExactIff | bin/solver-capture-pull.py:71-186 | an upper bound is right for every row exactly with three fraction digits and `Z` |
| OccurrenceBackfill.SurvivorIs | bin/backfill-occurrence-date.py:53-57 | the survivor is pending only if all rows are, the oldest of its kind, and the first of equally old ones |
| OccurrenceBackfill.SurvivorIsFirst | bin/backfill-occurrence-date.py:53-57 | the survivor ranks before every row of its group: non-pending first, then oldest |
| OccurrenceBackfill.OccurrenceIs | bin/backfill-occurrence-date.py:65-70 | the date is the local date of `pinned_at`, or of `earliest_start` where nothing is pinned, in the owner's zone or the default one |
| OccurrenceBackfill.PlanBackfill | bin/backfill-occurrence-date.py:60-79 | the stamps and deletes of the groups, in order of first occurrence |
| OccurrenceBackfill.EachRowOnce | bin/backfill-occurrence-date.py:63-79 | every row is stamped with its own date, deleted, or skipped, and only one of these |
| OccurrenceBackfill.IndexHoldsIff | bin/backfill-occurrence-date.py:36-39 | afterwards no two rows clash under the UNIQUE index, exactly if no row without timing brings a date that another row has or gets |
| OccurrenceBackfill.DeletesOnlyTheWorse | bin/backfill-occurrence-date.py:75-78 | a deleted row leaves a better-ranked row of its group, a non-pending one if it was non-pending |
| OccurrenceBackfill.PlanningAgain | bin/backfill-occurrence-date.py:59-79 | planning again deletes nothing and gives the same stamps |
| BackfillOrder.SameOrderIff | bin/backfill-occurrence-date.py:59-79 | planning again gives the stamps in the same order exactly if survivors come in the order of their groups' first rows |
| OccurrenceBackfill.SkippedCountRight | bin/backfill-occurrence-date.py:118-120 | the printed number of skipped rows is the number of rows without timing |
| MailRelay.NewestMatchingLink | bin/poll-smoke.py:674-707 | the link of the newest message sent at or after the watermark that carries one for this poll, or none exactly if there is none |
| MailRelay.NewestLinkUnique | bin/poll-smoke.py:668-707 | that description determines the link |
| MailRelay.NewestLinkIs | bin/poll-smoke.py:700-707 | some message offers the link, and no later one offers any; there is none if no message does |
| MailRelay.Relay.ConfigureMailReader | bin/poll-smoke.py:906-914 | a run starts with no warning printed and no fruitless poll |
| MailRelay.Relay.DisableMailReader | bin/poll-smoke.py:925-940 | the reader goes off, with a warning the first time only |
| MailRelay.Relay.MailboxToken | bin/poll-smoke.py:943-992 | with a reader, the mailbox is asked for this invitee and watermark, at intervals, until an answer holds a link, whose token or error is given; the reader is switched off exactly after a refused permission or a fruitless answer at the deadline |
| MailRelay.Relay.ResolveToken | bin/poll-smoke.py:995-1042 | what every call gives: the preset token, else the mailbox token, else exit or what the operator types; and that the reader is lost exactly if the mailbox was asked in vain |
| MailRelay.Relay.ResolveAll | bin/poll-smoke.py:906-1042 | over any run after one configuration, every call gives what it should and has a reader exactly while no earlier call asked in vain; at most one does, with one warning, and after it the mailbox is not asked again |
| LoginRestore.World.CompareAndSwap | bin/identity-smoke.py:658-661 | if it does not raise, it took effect at some moment: a drift value in the row then was replaced, and is gone unless a drift write was still in flight |
| LoginRestore.IdentitySmoke.EventuallyGone | bin/identity-smoke.py:663-668 | up to six looks, until one raises or sees the drift value gone; a row without it, and with none in flight, is confirmed |
| LoginRestore.IdentitySmoke.RestoreLoginEmail | bin/identity-smoke.py:654-668 | one swap, then looks; if nothing raises and nothing is in flight the drift value is gone and the debt cleared; a failing call keeps the debt |
| LoginRestore.IdentitySmoke.CheckDrift | bin/identity-smoke.py:635-652 | which calls are made in which order: the UPDATE, and unless it raised the rebind, its checks, and a restore whatever they did; when the step fails; what it leaves |
| LoginRestore.IdentitySmoke.Cleanup | bin/identity-smoke.py:750-779 | afterwards the drift value is gone, or known and reported, exactly unless it landed after the confirming read |
| LoginRestore.IdentitySmoke.Run | bin/identity-smoke.py:849-867 | if no database call raised the drift value is gone and nothing is reported; over every interleaving of failures, late statements and other writers it is gone, or known and reported, exactly unless it landed late |
| LoginHistory.SignInSticks | bin/identity-smoke.py:654-661 | after a sign-in only sign-ins write, until the next drift write |
| LoginHistory.LastSignInRemainsIff | bin/identity-smoke.py:635-661 | when the last sign-in's address is what remains |

## Left out

- Floating-point rounding, percentiles, calibration and prices in `bin/container-backtest.py`: reals are exact, and those are formulas over the report.
- `parse_events` and `_strings_in` in `bin/engine-smoke.py`: walking a decoded tail record and looking for event names; only the payload scan is modelled. `json.loads` is a function parameter.
- JSON decoding of log messages, `classify_trigger` and the millisecond rounding of wall times in `bin/solver-usage-backfill.py`: events arrive decoded. A message that does not decode, which aborts the original, is not modelled.
- CSV files: `merge_csv` works on a map from keys to stored rows; the order of rows in the written file is not modelled.
- TOML beyond this schema: one table or one basic-string entry per line, the two-character escapes, no `\u` escapes, no keys outside a table, no other value types (so no wrong-type errors).
- Text of messages: reasons and warnings are constructors with their data, and advisories and login commands are not spelled out.
- White space and case: `strip` removes ASCII white space, `lower` and `upper` change ASCII letters, `casefold` is a function parameter; `\d` means ASCII digits.
- Times: ISO parsing and printing of mint times, `local_date` and the formatting of log timestamps are function parameters.
- Shell quoting: `export K=V` assigns the text V as it stands; values with characters special to the shell are not modelled.
- Remote systems: HTTP, Graph, D1 and wrangler calls appear as a cell, as answers, or as failures; the SQL statements themselves are modelled only for the `login_email` column.
- A statement still in flight when cleanup ends: the guarantees are about the row at that moment.
- RunnerConfig.LegacyFileLoadsAlike: an older file is one in the writer's own layout; a hand-edited layout is read by the loader but not compared.
- Datetime bounds whose fields name no time of day, such as hour 25: they are accepted and compared as text, but name no instant to be right about.
- The other steps of `bin/identity-smoke.py` and the browser sign-in: they count as other writers that do not know the drift value.
- `GmailReader` and `GraphReader` in `bin/poll-smoke.py`: a reader is any source of answers.
- The live smoke scenarios, host guards, argument parsing, price tables and window splitting: scripts over remote systems, or branch tables.
