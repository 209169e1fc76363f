# ForgeFleet: verified model of the fleet's coordination logic

ForgeFleet runs agents on a fleet of computers that share a Postgres database. This project models the
parts whose correctness is not visible from one function, and proves what they promise:

- the build script's civil-date arithmetic (`CivilDate.dfy`);
- the scheduler tick that matches ready work items to capable slots (`Scheduler.dfy`);
- the sub-agent slots that dispatchers claim and release while a reaper sweeps stale ones
  (`SlotTables.dfy`, `SlotProtocol.dfy`), and one dispatch with its two nested retry loops (`Dispatch.dfy`);
- the resource arbiter: the global host order (`HostOrder.dfy`), host sets and plans (`Arbiter.dfy`), one pass with
  grants, preemption and every read and write free to fail (`ArbiterPass.dfy`), and all interleavings of its calls
  with crashes and failing writes (`ArbiterProtocol.dfy`, and per tenure `ArbiterTenure.dfy`);
- alert conditions and the alert doctor (`AlertConditions.dfy`), firing and resolving (`AlertEvents.dfy`),
  and the hourly throttle of Telegram alerts (`TelegramDedup.dfy`);
- the agent loop with its two tool paths (`AgentLoop.dfy`);
- the inline markdown parser (`Markdown.dfy`) and the JSON parity check (`ShadowParity.dfy`, `JsonNumbers.dfy`).

`Text.dfy` holds case folding and string order, `Options.dfy` optional values and lists without
repetition. `dafny verify dfyconfig.toml` checks everything.

## How it is modelled

Every SQL statement is one atomic step on modelled tables. Protocols are state machines: a run is a sequence
of steps of any number of actors, and the main results hold after every run. Clocks, HTTP calls, tools, builds
and database failures are inputs chosen by the environment; each result holds for every choice, and "Left out" names
the failures that are not modelled. Scores and metric values are reals. Loops of the source are methods with loops, objects with fields are classes, and each
method is tied to a function of its inputs or of the old state; the laws are proved about those functions.

## What the proofs found

- `release_slot` does not check the owner, so exclusive use of a slot rests on timing. `SlotProtocol.SafeExactly`
  gives the exact bound: longest hold plus lag of the claiming client's clock at most 3600 seconds.
- A dispatch leaves a slot taken in exactly three ways: a claim that is applied although its reply is lost, a release
  that fails, which is only logged, and a panic (`Dispatch.SlotsLeftTaken`). `truncate` cuts at a byte position, so a
  run panics after the LLM has answered exactly if byte 80 of the prompt or byte 400 of the answer falls inside a
  character (`Dispatch.PanicsExactly`).
- `ymd_from_unix` casts the year to `i32`. `CivilDate.YmdIsCalendar` gives the exact days for which the result is
  the calendar date, and `CivilDate.YearWraps` the first second after them.
- The alert doctor calls some policies polled that can never fire (`AlertConditions.PolledButDead`);
  `AlertConditions.DoctorExact` and `AlertEvents.FiresExactly` state exactly which policies can.
- The cooldown compares the leader's clock with times stamped by the database. It falls short by as much as the
  leader's clock is ahead, and by no more (`AlertEvents.CooldownExactly`, with the failing run in
  `AlertEvents.FiresEarly`).
- A Telegram message that was accepted although its send timed out gives its claim back, so two messages can arrive
  within the hour; `TelegramDedup.ArrivalsExactly` gives the exact condition.
- `holder_priority` returns 0 when the read of the holder's row fails, so a pass can release a holder of higher
  priority than the challenger (`ArbiterPass.FailedReadPreemptsHigher`). `ArbiterPass.OutrankingExactly` states exactly
  when it does not.
- The documentation of `run_prework` speaks of resuming, but a pass only walks intents that are still pending. Prework
  goes on only with a grant, which needs a pending intent that owns nothing (`ArbiterPass.ResumesExactly`); a plan that
  stopped half-way stays there (`ArbiterPass.NeverResumed`) until its lease expires or a challenger has the intent
  released. A pending intent that already owns its set blocks itself
  (`ArbiterPass.SelfBlockedExactly`).
- The cursors of an intent outlive its tenure. If the writes of its states are refused, it can be granted a second time
  and become active without running a prework step (`ArbiterTenure.SecondTenureSkips`);
  `ArbiterTenure.TenureExactly` gives the exact condition.
- `llm_retry_count` starts at 0 in every turn, so the error after three retries is never returned: a run whose
  requests all fail uses up its turns (`AgentLoop.AgentSession.RunAgentLoop`).
- Calls stopped by a gate count as consecutive errors on the parallel tool path and do not on the single path
  (`AgentLoop.GatedErrors`).
- In a segment with a pair of double stars, single stars in front of the pair stay plain text; this is part of the
  normal form in `Markdown.InlineNormal`.

## Model

| member | source | states |
|---|---|---|
| `CivilDate.CivilIsCalendar` | crates/ff-terminal/build_version.rs:95-110 | for every day number, including negative eras, the closed form is the date reached by stepping a Gregorian calendar day by day from 1970-01-01 |
| `CivilDate.YmdIsCalendar` | crates/ff-terminal/build_version.rs:95-110 | the result is the calendar date of the second's day if and only if that day's year fits the 32-bit year field, given as a range of days |
| `CivilDate.YmdMonotone` | crates/ff-terminal/build_version.rs:95-110 | constant within a day and strictly later on every later day |
| `CivilDate.CivilInverse` | crates/ff-terminal/build_version.rs:97-109 | counting days by years and months and the conversion undo each other in both directions, so every valid date is reached exactly once |
| `CivilDate.YearWraps` | crates/ff-terminal/build_version.rs:108 | the first day after the exact range is reported with the year wrapped around |
| `CivilDate.CivilStep` | crates/ff-terminal/build_version.rs:99-108 | one more day in the closed form is the next day of the calendar, across months, leap days, centuries and eras |
| `CivilDate.MarchYearExact` | crates/ff-terminal/build_version.rs:99-104 | era, year of era and day of year name the March-based year that contains the day |
| `Scheduler.TickHalfOptimal` | src/pm/mod.rs:169-215 | no one-to-one assignment of ready items to capable slots has more than twice the tick's total score, nor more than twice its number of assignments |
| `Scheduler.TickIsMatching` | src/pm/mod.rs:170-212 | only ready items, only capable slots, no slot twice |
| `Scheduler.TickLeavesNothing` | src/pm/mod.rs:184-212 | if a ready item is left out, every capable slot went to an item that ranks before it |
| `Scheduler.UrgentNotLeftOut` | src/pm/mod.rs:105-214 | of two ready items that ask for the same or less, the one with a more urgent quadrant, a smaller priority number, fewer blockers, a greater age or less to do is never left out while the other gets a slot, if its points are positive |
| `Scheduler.ReportedScores` | src/pm/mod.rs:105-110 | the reported score of an item that is not from the future: 1000, 750, 500 or 250 for the quadrant, 100 for each priority level above 6, 10 for each hour in whole seconds, 50 less for each blocker |
| `Scheduler.PickScoreExact` | src/pm/mod.rs:105-110 | the same of the scoring function |
| `Scheduler.TickDependsOnReadySet` | src/pm/mod.rs:169-215 | with distinct identifiers the output depends only on the set of ready items: permuting the list or changing items that are not ready changes nothing |
| `Scheduler.TickReportsMatching` | src/pm/mod.rs:206-210 | the output names exactly the pairs of the matching, each with the item's pick score |
| `Scheduler.TickCount` | src/pm/mod.rs:201-214 | the output has as many entries as the matching has pairs |
| `Scheduler.SchedulerTick` | src/pm/mod.rs:169-215 | the loop with `swap_remove` computes the tick that the lemmas are about |
| `Scheduler.AssignAll` | src/pm/mod.rs:192-214 | the assignment loop, first fit over the remaining slots |
| `Scheduler.SwapRemoveExact` | src/pm/mod.rs:205 | the removed slot is gone, the last one takes its place, the others stay |
| `Scheduler.BestScoreExact` | src/pm/mod.rs:174-180 | the fold over all slots is the item's own weighted score, cut off at 0, as soon as one slot can take it, and 0 otherwise |
| `Scheduler.OrderRanked` | src/pm/mod.rs:185-190 | the order is strict by score descending, identifier ascending, position ascending |
| `Text.LexExact` | src/pm/mod.rs:189 | identifiers are compared at the first place where they differ, and a proper prefix comes first |
| `Scheduler.GreedyHalfOptimal` | src/pm/mod.rs:195-212 | first fit is half-optimal for every nonincreasing weight of the items |
| `Scheduler.GreedyLeavesNothing` | src/pm/mod.rs:201-212 | names the earlier item that holds a slot an unassigned item could have used |
| `SlotProtocol.SafeExactly` | crates/ff-agent/src/agent_coordinator.rs:216-251 | in every interleaving of dispatchers, crashes and sweeps no two dispatchers hold the same slot, a held slot is busy with its holder's item and an idle slot is empty, if and only if longest hold plus clock lag is at most 3600 seconds |
| `SlotProtocol.RunKeeps` | crates/ff-agent/src/agent_coordinator.rs:842-938 | the invariant behind it holds after every run |
| `SlotProtocol.ReapKeeps` | crates/ff-agent/src/agent_coordinator.rs:878-889 | a sweep never takes a held slot |
| `SlotProtocol.UnstickKeeps` | crates/ff-agent/src/sub_agent_reaper.rs:106-122 | the stuck-slot reaper, which goes by the start of the work, takes no held slot by the same bound |
| `SlotProtocol.StuckExact` | crates/ff-agent/src/sub_agent_reaper.rs:106-122 | the rows it takes: busy, not leased, started more than an hour ago or at no known time |
| `SlotProtocol.TooLong` | crates/ff-agent/src/agent_coordinator.rs:238-250 | beyond the bound there is a run in which two dispatchers hold one slot |
| `SlotProtocol.CrashedSlotRecovers` | crates/ff-agent/src/agent_coordinator.rs:864-873 | once the ceiling has passed, a complete sweep takes the row of a crashed dispatcher, unless a lease owns it |
| `SlotTables.StagesExact` | crates/ff-agent/src/agent_coordinator.rs:878-929 | the five stages of the statement, each reading the tables as they were and what earlier stages returned, have together the declared effect on slots, items and worktrees and return the declared report, for any stale rows |
| `SlotTables.PendingExact` | crates/ff-agent/src/agent_coordinator.rs:890-896 | the second stage returns exactly the items of swept slots that have an uncleaned worktree |
| `SlotTables.SharedItem` | crates/ff-agent/src/agent_coordinator.rs:897-929 | stale slots that track one item are parked together or freed together, and the report says the same of both |
| `SlotTables.SweepSlots` | crates/ff-agent/src/agent_coordinator.rs:897-911 | the declared effect keeps idle slots empty and leaves leased and other slots alone; a swept slot becomes idle and empty, or keeps its item for cleanup exactly if it has an uncleaned worktree |
| `SlotTables.SweepItems` | crates/ff-agent/src/agent_coordinator.rs:912-925 | an item is re-queued exactly if a swept slot tracked it, it has no uncleaned worktree and it is not terminal, and the report flags exactly those |
| `SlotTables.SweepWorktrees` | crates/ff-agent/src/agent_coordinator.rs:890-896 | an uncleaned worktree of a swept slot is marked stale and its item left alone |
| `SlotTables.SweepIdempotent` | crates/ff-agent/src/agent_coordinator.rs:879-911 | a complete sweep leaves nothing for a second one at the same time |
| `SlotTables.StaleExact` | crates/ff-agent/src/agent_coordinator.rs:879-889 | the rows a complete sweep takes: busy, not leased, and without a heartbeat since the ceiling |
| `SlotTables.ClaimExact` | crates/ff-agent/src/agent_coordinator.rs:216-234 | a claim that is won makes the slot busy with the item and its stamps and closes it; one that is lost changes nothing |
| `SlotTables.ReleaseExact` | crates/ff-agent/src/agent_coordinator.rs:238-251 | a slot released as usable can be claimed again, one released after a failure cannot; either is empty, and nothing else changes |
| `SlotTables.SeedRowsExact` | crates/ff-agent/src/agent_coordinator.rs:529-544 | seeding adds exactly the missing slots, idle and empty, and leaves existing rows alone |
| `SlotTables.CoordinatorDb.ClaimSlot` | crates/ff-agent/src/agent_coordinator.rs:216-234 | compare-and-swap on the status: true exactly if the slot was idle |
| `SlotTables.CoordinatorDb.ReleaseSlot` | crates/ff-agent/src/agent_coordinator.rs:238-251 | the row is reset whoever holds it |
| `SlotTables.CoordinatorDb.ReapStaleBusySlots` | crates/ff-agent/src/agent_coordinator.rs:874-938 | running the stages on all stale rows that no other transaction has locked leaves the declared tables and report |
| `SlotTables.CoordinatorDb.EnsureSubAgentRows` | crates/ff-agent/src/agent_coordinator.rs:522-546 | the seeded table, and the number of rows created |
| `Dispatch.DispatchTask` | crates/ff-agent/src/agent_coordinator.rs:255-343 | for every environment: every pick, claim, run and release is the answer to the attempt and try that was due, on the target computer if there is one; a failure that may be retried is final only after three runs, and lost claims only after eight in a row; each claim won is run, and on every return path released exactly once, no computer asked twice, one output row with a receipt and none with an error unless the insert's reply was lost, and the outcome follows from the last events |
| `Dispatch.RunOnce` | crates/ff-agent/src/agent_coordinator.rs:304-338 | one run on a claimed slot: its outcome, the release that follows, and whether the dispatch may go on |
| `Dispatch.RunOutcomes` | crates/ff-agent/src/agent_coordinator.rs:346-457 | every outcome of a run that does not panic: the LLM's error, an empty answer, or what became of the insert |
| `Dispatch.ClaimSome` | crates/ff-agent/src/agent_coordinator.rs:277-302 | the inner loop: a slot picked and won on a computer not yet tried, or an outcome that meets the contract, for lost claims only after eight tries |
| `Dispatch.PickWorker` | crates/ff-agent/src/agent_coordinator.rs:135-211 | the lowest idle slot of the target computer, or an idle slot on a known computer not yet tried: one with an LLM if there is one, and among those one that is online if there is one; the error cases |
| `Dispatch.PickSkipsExcluded` | crates/ff-agent/src/agent_coordinator.rs:140-145 | a pick never names an excluded computer |
| `Dispatch.ClaimsAreReleased` | crates/ff-agent/src/agent_coordinator.rs:304-338 | in every log of a dispatch the claims reported as won and the runs are as many as the releases issued, or one more after a panic |
| `Dispatch.SlotsLeftTaken` | crates/ff-agent/src/agent_coordinator.rs:289-338 | the claims applied in the database exceed the releases applied by the number of refused releases, plus one for a claim applied although its reply was lost, plus one for a panic; so no slot stays taken if and only if none of the three happened |
| `Dispatch.PanicsExactly` | crates/ff-agent/src/agent_coordinator.rs:346-439 | a run panics if and only if the LLM answered and byte 80 of the prompt or byte 400 of the answer is not the start of a character |
| `Dispatch.FirstBytesExact` | crates/ff-agent/src/agent_coordinator.rs:510-516 | cutting at a byte succeeds exactly if some prefix of the text has that many bytes, and returns that prefix |
| `HostOrder.SortedHostSetExact` | crates/ff-agent/src/arbiter.rs:103-111 | strictly ascending by lower-cased name, the same hosts up to case, every name taken from the input |
| `HostOrder.NoWaitCycle` | crates/ff-agent/src/arbiter.rs:103-111 | actors that take their sets host by host in this order never form a wait cycle of any length |
| `ArbiterPass.PreemptsExactly` | crates/ff-agent/src/arbiter.rs:253-284 | the holder of a host is released for a challenger if and only if the host blocks the challenger, every priority as read, 0 where the read failed, is below the challenger's, and the holder's row can be read again |
| `ArbiterPass.OutrankingExactly` | crates/ff-agent/src/arbiter.rs:253-284 | a pass releases only holders of strictly lower priority if and only if every failed read of a priority was of a holder below the challenger |
| `ArbiterPass.FailedReadPreemptsHigher` | crates/ff-agent/src/arbiter.rs:327-335 | the failing input: with one failed read a challenger of priority 1 releases a holder of priority 9 |
| `ArbiterPass.GrantsExactly` | crates/ff-agent/src/arbiter.rs:236-319 | an entry of the queue is granted if and only if its write succeeds, its whole set was available in the pass's snapshot, and no earlier entry, of the same or higher priority, took one of its hosts |
| `ArbiterPass.LeasesExactly` | crates/ff-agent/src/arbiter.rs:218-232 | an intent none of whose leases has ended keeps its row and its hosts through the reaping half; one with a lease that has ended loses all its hosts if its row and those before it can be read and the freeing write is applied; a pass that fails in between stops there |
| `ArbiterPass.LeaseLength` | crates/ff-db/src/queries.rs:8980-9005 | a host that an entry took is reserved for it to the end of the pass, with a lease of the seconds it asked for, at least one |
| `ArbiterPass.OwnersExactly` | crates/ff-agent/src/arbiter.rs:246-319 | after a pass a holder of the snapshot has lost its set exactly if one of its releases freed it and keeps all of it otherwise; everybody else owns the set the pass took for him, or nothing |
| `ArbiterPass.PreworkOnlyWithGrant` | crates/ff-agent/src/arbiter.rs:298-311 | in one pass the prework of an intent goes further if and only if the pass granted it and the first thing left to do got done; a grant needs a pending intent that owns nothing |
| `ArbiterPass.ResumesExactly` | crates/ff-agent/src/arbiter.rs:337-374 | from a given state of the tables when a pass reads its queue, some course of the pass takes the prework of an intent further if and only if the intent is pending and its whole set is available |
| `ArbiterPass.NeverResumed` | crates/ff-agent/src/arbiter.rs:234-238 | over any number of passes with any failures an intent that is not pending keeps its prework cursor and never becomes active |
| `ArbiterPass.SelfBlockedExactly` | crates/ff-agent/src/arbiter.rs:252-284 | a pending intent that already owns its set is not granted; its own turn releases it if and only if its priority is positive, every read of that priority fails and one of the second reads of its row succeeds |
| `ArbiterPass.ReapedExact` | crates/ff-agent/src/arbiter.rs:218-232 | of a list of owners each loses its hosts exactly if the write that frees them is applied, with its row as a release leaves it; nobody else is touched |
| `ArbiterPass.PassKeeps` | crates/ff-agent/src/arbiter.rs:203-322 | every intent owns its whole host set or none of it after a pass, whichever reads, writes and steps failed |
| `ArbiterPass.WalkInPass` | crates/ff-agent/src/arbiter.rs:246-319 | the invariant of the walk over the queue: owners, available hosts and rows change only by the grants and releases in its log |
| `ArbiterPass.ArbiterDb.ArbiterPass` | crates/ff-agent/src/arbiter.rs:203-322 | off and dry-run change nothing; an active pass is one the laws are about, with the failures that end it early, and keeps every intent at its whole set or nothing |
| `ArbiterPass.ArbiterDb.WalkQueue` | crates/ff-agent/src/arbiter.rs:246-320 | the loop over the queue computes the walk that the laws are about |
| `ArbiterPass.ArbiterDb.CanPreempt` | crates/ff-agent/src/arbiter.rs:256-264 | the loop with its early exit decides whether every holder is outranked, as far as the reads tell |
| `ArbiterPass.ArbiterDb.ReadPending` | crates/ff-db/src/queries.rs:8898-8906 | the pending intents, each once, by priority descending and creation ascending |
| `ArbiterPass.ArbiterDb.GrantSet` | crates/ff-db/src/queries.rs:8970-9010 | all or nothing: the whole set is reserved if every host is available, otherwise no host changes |
| `ArbiterPass.ArbiterDb.RunPrework` | crates/ff-agent/src/arbiter.rs:340-374 | a failed step and a cursor that is not saved end the loop, whether or not the write was applied; the row is the one `Arbiter.PreworkExact` is about |
| `ArbiterPass.ArbiterDb.ReleaseIntent` | crates/ff-agent/src/arbiter.rs:379-421 | every remaining restore step is attempted whatever fails, and only then is the set freed, if that write is applied |
| `Arbiter.PreworkExact` | crates/ff-agent/src/arbiter.rs:340-374 | the cursor never moves back nor past a step that failed; the intent becomes active exactly if every remaining step succeeded, every cursor was saved and the last write was applied |
| `Arbiter.RestoreExact` | crates/ff-agent/src/arbiter.rs:379-421 | after a release the state is the last one whose write was applied, and the restore cursor stands behind the last step whose write was applied |
| `Arbiter.GrantKeeps` | crates/ff-db/src/queries.rs:8982-9009 | a grant reserves every host of the set for the intent until the end of the lease, and takes nothing from anybody; no other host changes |
| `Arbiter.ReleaseKeeps` | crates/ff-db/src/queries.rs:9045-9058 | freeing makes every host of the intent available, without owner and lease; no other host changes |
| `ArbiterProtocol.AlwaysSafe` | crates/ff-agent/src/arbiter.rs:340-421 | in every run with crashes and failing writes anywhere and any number of calls per intent: whole host set or none, active only after every prework step succeeded, freed only after every restore step was attempted |
| `ArbiterProtocol.RunKeeps` | crates/ff-agent/src/arbiter.rs:340-421 | the invariant behind it, including that every persisted and every local cursor stands behind completed steps |
| `ArbiterProtocol.CallsTerminate` | crates/ff-agent/src/arbiter.rs:343-412 | every step of a call lowers its rank and no other call changes it, so both plan loops terminate |
| `ArbiterTenure.TenureExactly` | crates/ff-agent/src/arbiter.rs:301-421 | every continuation of a tenure activates the intent only after all prework steps and frees it only after all restore steps of that tenure, if and only if every cursor of the intent, persisted or in a call, stands behind steps of that tenure |
| `ArbiterTenure.FreshTenureClean` | crates/ff-agent/src/arbiter.rs:304-311 | at a grant that condition says that each cursor is 0 or its plan is empty |
| `ArbiterTenure.SecondTenureSkips` | crates/ff-agent/src/arbiter.rs:301-421 | the failing run: with four refused writes of the state a second tenure is active without a prework step |
| `AlertConditions.DoctorSound` | crates/ff-agent/src/alert_evaluator.rs:231-252 | a policy the doctor does not call polled never matches, whatever the beats and the database say |
| `AlertConditions.DoctorExact` | crates/ff-agent/src/alert_evaluator.rs:653-765 | a policy can match if and only if a condition on its metric and condition alone holds, with 32-bit counts summed over servers and 64-bit ages; the doctor's verdict is necessary for it |
| `AlertConditions.PolledButDead` | crates/ff-agent/src/alert_evaluator.rs:231-252 | two policies the doctor calls polled that can never match: a text condition on a number, and half a queued request |
| `AlertConditions.SilentWithoutBeat` | crates/ff-agent/src/alert_evaluator.rs:662-668 | no numeric policy on a beat's content matches for a computer without a beat |
| `AlertConditions.ParsesWritten` | crates/ff-agent/src/alert_evaluator.rs:77-120 | an operator and an argument with any white space before, between and after them parse to that comparison: quoted arguments as strings, under equality and its negation only, others as numbers; the one exception is an argument that starts with an equals sign right after a strict operator |
| `AlertConditions.WrittenNumberMeans` | crates/ff-agent/src/alert_evaluator.rs:77-135 | a written comparison with a number holds of exactly the values it says, equality up to the smallest difference of two floating-point numbers near 1 |
| `AlertConditions.WrittenTextMeans` | crates/ff-agent/src/alert_evaluator.rs:77-160 | a written comparison with a quoted text holds of exactly that text, or of every other; ordering a text is unparseable |
| `AlertConditions.ReadExact` | crates/ff-agent/src/alert_evaluator.rs:653-742 | for each metric the field of the first beat of the computer, or the sum over its servers, that is read; a free disk of exactly 0 is unknown |
| `AlertConditions.AgesExact` | crates/ff-agent/src/alert_evaluator.rs:729-765 | the ages come from the database and count as 0 if missing; a computer without a beat is down |
| `AlertEvents.AlertsAlternate` | crates/ff-agent/src/alert_evaluator.rs:384-568 | over any sequence of ticks, also ones cut short by errors, only the last event of a (policy, computer) pair may be unresolved, whatever the clocks do, and the events alternate in time if the database's clock does not run backward |
| `AlertEvents.CooldownExactly` | crates/ff-agent/src/alert_evaluator.rs:480-492 | in every run each event fires at least the cooldown less a slack after every earlier resolution of its pair, if and only if the leader's clock is never ahead of the database's by more than that slack; without slack, if and only if it is never ahead |
| `AlertEvents.FiresEarly` | crates/ff-agent/src/alert_evaluator.rs:481-484 | the failing run: with a leader ahead of the database the next event fires that much before the end of the cooldown |
| `AlertEvents.VisitExact` | crates/ff-agent/src/alert_evaluator.rs:447-568 | what one visit does in every case: a matching condition adds an open event exactly if the pair has none, no resolution of it is younger than the cooldown, and the condition was held or need not be; one that no longer matches resolves the pair's last open event |
| `AlertEvents.FiredJustified` | crates/ff-agent/src/alert_evaluator.rs:447-552 | every event a tick adds comes from a policy and a target of it for which the condition matched and, with a duration and a history column, was met by a nonempty history in every row |
| `AlertEvents.AllJustified` | crates/ff-agent/src/alert_evaluator.rs:384-568 | the same for every event of a whole run |
| `AlertEvents.VisitsComplete` | crates/ff-agent/src/alert_evaluator.rs:384-447 | every target of every policy that is neither muted nor unparseable is visited |
| `AlertEvents.TargetsExact` | crates/ff-agent/src/alert_evaluator.rs:408-442 | the targets of each scope |
| `AlertEvents.FiresExactly` | crates/ff-agent/src/alert_evaluator.rs:397-537 | some tick fires a policy if and only if its metric can meet its condition and its scope names computers |
| `AlertEvents.DeadPolicyNeverFires` | crates/ff-agent/src/alert_evaluator.rs:397-405 | no beats, history or table make a tick fire a policy whose metric cannot meet its condition or whose scope names no computers |
| `AlertEvents.UnpolledNeverFires` | crates/ff-agent/src/alert_evaluator.rs:231-252 | no tick fires a policy the doctor does not call polled |
| `AlertEvents.MutedPolicyUntouched` | crates/ff-agent/src/alert_evaluator.rs:384-396 | while presence alerts are muted a tick neither fires nor resolves a presence policy |
| `AlertEvents.Evaluator.EvaluateOnce` | crates/ff-agent/src/alert_evaluator.rs:357-573 | the table after a tick is the old one after the visits the tick made; the returned counters are the numbers of events fired and resolved; the tick succeeds exactly if no statement of its visits failed |
| `AlertEvents.Evaluator.Process` | crates/ff-agent/src/alert_evaluator.rs:447-568 | one visit fires, resolves or does nothing |
| `AlertEvents.ConditionHeldForDuration` | crates/ff-agent/src/alert_evaluator.rs:770-818 | held without a history column; otherwise only if there is a row and every row matches |
| `TelegramDedup.SafeExactly` | crates/ff-agent/src/alert_evaluator.rs:281-328 | in every interleaving at most one claim per signature is in flight and the claim times of two messages of one signature that their senders know to be delivered are an hour apart, if and only if every send ends in less than an hour |
| `TelegramDedup.ArrivalsExactly` | crates/ff-agent/src/alert_evaluator.rs:893-918 | the claim times of the messages that reached Telegram, also from senders that crashed, are an hour apart in every run if and only if every send ends in less than an hour and no accepted message is reported as failed |
| `TelegramDedup.GapExactly` | crates/ff-agent/src/alert_evaluator.rs:893-918 | under that condition the messages of one key arrive at least an hour less the longest send apart, and no larger gap holds in every run |
| `TelegramDedup.OccurExact` | crates/ff-agent/src/alert_evaluator.rs:857-870 | an occurrence is only counted if its process sent the key less than an hour ago, and goes on to claim otherwise |
| `TelegramDedup.DueExact` | crates/ff-agent/src/alert_evaluator.rs:281-311 | a claim is granted exactly if the key is new, was given back or is an hour old, and takes all suppressed occurrences |
| `TelegramDedup.AcceptedButFailed` | crates/ff-agent/src/alert_evaluator.rs:893-918 | the failing run: a message accepted although its send timed out, and the next one at once |
| `TelegramDedup.ConservedFromInit` | crates/ff-agent/src/alert_evaluator.rs:278-340 | at every moment of every run the occurrences seen for a key are those delivered, suppressed, in flight and lost by crashes |
| `TelegramDedup.OccurrencesConserved` | crates/ff-agent/src/alert_evaluator.rs:857-918 | the same law from any consistent state; without crashes nothing is lost |
| `TelegramDedup.SignatureInjective` | crates/ff-agent/src/alert_evaluator.rs:274-276 | different (metric, node) keys have different signatures |
| `TelegramDedup.TooSlow` | crates/ff-agent/src/alert_evaluator.rs:291-304 | a send of an hour lets a second claim of the same signature in |
| `TelegramDedup.RunKeeps` | crates/ff-agent/src/alert_evaluator.rs:854-918 | the invariant behind the exact bound holds after every run |
| `TelegramDedup.DedupTable.ClaimTelegramAlert` | crates/ff-agent/src/alert_evaluator.rs:281-311 | the upsert: 0 if collapsed, otherwise the suppressed occurrences plus one |
| `TelegramDedup.DedupTable.ReleaseTelegramAlertClaim` | crates/ff-agent/src/alert_evaluator.rs:313-328 | the key has its occurrences back and may be claimed at any time; no other key changes |
| `TelegramDedup.ClaimRoundTrip` | crates/ff-agent/src/alert_evaluator.rs:281-328 | claiming closes the key and takes its occurrences; giving the claim back opens it again with one occurrence more |
| `TelegramDedup.DedupTable.IncrementTelegramAlertRepeat` | crates/ff-agent/src/alert_evaluator.rs:330-340 | one more suppressed occurrence of the key; when it may be claimed, and every other key, stay as they were |
| `AgentLoop.AgentSession.RunAgentLoop` | crates/ff-agent/src/agent_loop.rs:712-1685 | the outcome is the one the last turn calls for, for each kind of reply and of tool result, and no turn before it calls for an end; the run ends by its turn limit only after min(max_turns, 100) requests; every turn that ran tools filed one result per call, ran only tools that passed both gates and, if it was not the last, left at most 20 signatures and fewer than 5 consecutive errors; a stuck build comes exactly at the sixth failed build in a row |
| `AgentLoop.AgentSession.Turn` | crates/ff-agent/src/agent_loop.rs:741-1665 | one request per turn; how each kind of reply ends it; a completed turn leaves at most 20 signatures and fewer than 5 consecutive errors; compaction retries are bounded |
| `AgentLoop.AgentSession.Respond` | crates/ff-agent/src/agent_loop.rs:1084-1159 | the answer is appended; without calls the run ends, with calls every result follows the answer |
| `AgentLoop.AgentSession.Act` | crates/ff-agent/src/agent_loop.rs:1161-1656 | on either tool path: results filed first, then ended by a tool, aborted by a panic, stopped by the build, or settled, with exactly the messages and the record of each case |
| `AgentLoop.AgentSession.RunParallel` | crates/ff-agent/src/agent_loop.rs:1193-1306 | the messages, the error count and the end-of-turn flag of the parallel path; gated calls are filed first |
| `AgentLoop.AgentSession.RunSingle` | crates/ff-agent/src/agent_loop.rs:1307-1484 | the same for the single path; a tool that panics aborts the loop and nothing is filed |
| `AgentLoop.AgentSession.Recover` | crates/ff-agent/src/agent_loop.rs:1592-1656 | the window of 20 signatures, cleared with a message when its last one was seen three times; the error count reset with a message at 5 |
| `AgentLoop.OneResultPerCall` | crates/ff-agent/src/agent_loop.rs:1272-1306 | exactly one result per call, unless a panic on the single path ends the loop; without a panic under exactly the ids of the calls |
| `AgentLoop.AnswersPassGates` | crates/ff-agent/src/agent_loop.rs:1204-1251 | every tool that ran passed the plan-mode and the allow-list gate and is the registered tool of that name |
| `AgentLoop.PlanModeIsReadOnly` | crates/ff-agent/src/agent_loop.rs:239-270 | in plan mode a tool runs only under one of seventeen names, and with an allow-list only under a name on it |
| `AgentLoop.RunsExactly` | crates/ff-agent/src/agent_loop.rs:1204-1440 | on either path a call runs its tool to the end if and only if its arguments parse, no gate stops it, a tool of that name is registered, whatever the case, and the tool does not panic |
| `AgentLoop.WhyNotRun` | crates/ff-agent/src/agent_loop.rs:1204-1400 | why a call did not run, and which check comes first on each path |
| `AgentLoop.GatedFirst` | crates/ff-agent/src/agent_loop.rs:1272-1306 | on the parallel path the results of the calls the gates stopped are filed first |
| `AgentLoop.RanIsRegistered` | crates/ff-agent/src/agent_loop.rs:398-407 | with an allow-list the tool that ran is itself on the list, because only such tools are registered |
| `AgentLoop.AgentSession.constructor` | crates/ff-agent/src/agent_loop.rs:398-407 | a new session registers exactly the core tools that its allow-list admits |
| `AgentLoop.Registered` | crates/ff-agent/src/agent_loop.rs:398-407 | a tool is registered exactly if it is a core tool and on the allow-list, if there is one |
| `AgentLoop.GatedErrors` | crates/ff-agent/src/agent_loop.rs:1272-1278 | how calls stopped by a gate count as errors on either path |
| `AgentLoop.ErrorsExact` | crates/ff-agent/src/agent_loop.rs:1272-1300 | consecutive errors are the results filed after the last success, added to those before if there is none |
| `AgentLoop.ThreeAlike` | crates/ff-agent/src/agent_loop.rs:1592-1635 | three calls alike at the end of a turn are always taken for a loop |
| `AgentLoop.TwoAlike` | crates/ff-agent/src/agent_loop.rs:1609-1635 | a signature seen twice is not |
| `AgentLoop.WindowExact` | crates/ff-agent/src/agent_loop.rs:1592-1607 | the window is the last 20 signatures |
| `AgentLoop.SigExact` | crates/ff-agent/src/agent_loop.rs:1592-1600 | calls of one name are alike exactly if their arguments agree in the first 80 characters |
| `AgentLoop.BuildCountExact` | crates/ff-agent/src/agent_loop.rs:1500-1560 | a build is checked only after a call that edits a Rust file; a failure counts, a good build starts again |
| `AgentLoop.SentExact` | crates/ff-agent/src/agent_loop.rs:757-803 | what is sent is the history, or a compaction of it that is shorter, cut to the budget |
| `Markdown.InlineLossless` | tui/src/markdown.rs:26-91 | putting the markers back reproduces every line exactly |
| `Markdown.InlineNormal` | tui/src/markdown.rs:26-91 | the parser returns spans in normal form, and every nonempty list in normal form is what it returns for its text |
| `Markdown.SpansOfMarkup` | tui/src/markdown.rs:30-43 | parsing undoes the markup of a line in normal form: code spans at the first pair of backticks |
| `Markdown.EmphasisOfMarkup` | tui/src/markdown.rs:51-91 | parsing undoes the markup of a segment in normal form: bold at the first pair, italic only when no pair is left |
| `Markdown.EmphasisNormal` | tui/src/markdown.rs:51-91 | what the segment parser returns is in normal form |
| `Markdown.InlineSpans` | tui/src/markdown.rs:26-48 | the outer loop computes the spans the lemmas are about; an empty line gives one empty span |
| `Markdown.PushEmphasis` | tui/src/markdown.rs:51-91 | the inner loop appends the spans of a segment |
| `ShadowParity.EqualIsCanonical` | internal/observability/rollout_shadow.go:71-110 | the comparison holds exactly when every number is accepted on both sides and the canonical forms are equal |
| `ShadowParity.EqualIsEquivalence` | internal/observability/rollout_shadow.go:71-110 | symmetric and transitive, and reflexive exactly on values whose numbers are accepted |
| `ShadowParity.ShadowValuesEqual` | internal/observability/rollout_shadow.go:71-110 | the recursion with its loops and early returns, maps visited in any order |
| `ShadowParity.ObjectsAgree` | internal/observability/rollout_shadow.go:95-106 | equal numbers of keys and every left key found on the right make the key sets equal |
| `ShadowParity.ParityMonitor.LogShadowParity` | internal/observability/rollout_shadow.go:21-46 | true exactly when both payloads decode to the same canonical form; the counter moves exactly otherwise |
| `ShadowParity.BlankIsNull` | internal/observability/rollout_shadow.go:48-51 | a blank payload counts as null; any other is what the parser makes of it |
| `JsonNumbers.AcceptsExact` | internal/observability/rollout_shadow.go:77-80 | which literals are read as numbers: the exponent fits 64 bits and, unless the number is 0, is within the limit |
| `JsonNumbers.LiteralsCompare` | internal/observability/rollout_shadow.go:71-81 | two number literals compare as equal if and only if both exponents fit 64 bits and, unless the number is 0, are within the limit, and the integers after alignment to the smaller exponent are equal |
| `JsonNumbers.ReadsWritten` | internal/observability/rollout_shadow.go:77-80 | every literal of the grammar of section 6 of RFC 8259 is read back as it was written |
| `JsonNumbers.ReadIsWritten` | internal/observability/rollout_shadow.go:77-80 | nothing outside that grammar is read |
| `JsonNumbers.ValueExact` | internal/observability/rollout_shadow.go:79-80 | comparing the values as rationals is comparing aligned integers |
| `JsonNumbers.TrailingZero` | internal/observability/rollout_shadow.go:77-80 | a zero at the end of the fraction changes nothing |
| `JsonNumbers.OneThreeTimes` | internal/observability/rollout_shadow.go:77-80 | 1, 1.0 and 10e-1 are the same number |

## Left out

- HTTP, Redis, Postgres connections, Telegram and webhook delivery, git and cargo: each is a success or failure chosen by the environment.
- Slot 99 and the other writers of `sub_agents`: the slot results are about worker slots, the statements of `agent_coordinator.rs` and the stuck-slot reaper; other code may reset a slot that is not busy. The lease lifecycle and the resets of busy slots at startup, drain and deployment are not modelled.
- Dispatch.PickWorker: the random choice among equally preferred slots is any such slot.
- SlotTables.CoordinatorDb.ReapStaleBusySlots: the time zone and the `f64` rounding of the interval are not modelled.
- Database errors in the Telegram throttle: a claim that fails is sent without a claim by the code, so the throttle's results are for statements that succeed.
- Two leaders at once in the alert evaluator: the results are for one leader at a time, as the source assumes.
- ArbiterPass.ArbiterDb.ArbiterPass: nobody else writes to the tables during a pass here; calls that overlap are in `ArbiterProtocol`. Computers whose names differ only in case count as one.
- AlertEvents.CooldownExactly: a policy's cooldown may change over time; the law is about the smallest one.
- AlertConditions.DoctorExact: floating-point values are reals without a largest one; NaN and infinite literals are not numbers here, and reading a floating-point literal is a parameter.
- `parse_zone`, `today_date_parts` and the daily build counter: easy parsing and file access.
- `parse_alert_metric_node` and the message format: token splitting; the throttle is modelled on its (metric, node) pair.
- AgentLoop.AgentSession.Turn: message contents, token usage, events and audit writes are not modelled; compaction and the tool-result budget are arbitrary functions on the messages.
- The rest of `render` in the markdown module, and the styling of spans.
- The JSON decoder is a parameter of the parity check; of `big.Rat.SetString` only its reading of JSON numbers is modelled, with the largest exponent it accepts as a parameter.
- The web and terminal interfaces, `src/main.rs`, the Go event consumers and the Python scripts: wiring and easy members.
