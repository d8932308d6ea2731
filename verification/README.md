# The human-gated write engine, verified

This project models the part of the HubSpot agent that decides when a change to a CRM portal may happen,
and proves what that part promises. HubSpot itself, its clock and the people at the keyboard are
parameters: every call may succeed, fail or answer anything, in any order.

The model has the source's own form. `LoopState`, the pending store, the portal, the HTTP client and the
installation are classes whose methods update fields in place, with the source's loops; each method is proved
equal to a specification function on values, or to a property outright. The theorems are lemmas about those
specification functions, over every input, run or reachable state.

| file | contents |
|---|---|
| `Agent.dfy` | the command handlers as the source runs them, proved to refine `Engine` and `Sweep` |
| `Engine.dfy` | the world of one portal and every command that moves it |
| `WriteSafety.dfy` | the whole-run safety invariant |
| `EndToEnd.dfy` | what one command does and a later one takes back or builds on |
| `Loop.dfy`, `LoopProofs.dfy`, `LoopFacts.dfy` | the durable loop, its accounting, bounds and plateaus, and what each answer and verdict makes of it |
| `HandlerFacts.dfy` | each handler's decision, exactly, in the words of its inputs |
| `Sweep.dfy`, `SweepRuns.dfy` | the scheduled sweep: one batch per schedule, no tick lost |
| `Tools.dfy`, `Policy.dfy`, `Gate.dfy`, `Effects.dfy` | what a tool call means, tiers, previews, pending records, what executing a payload does |
| `Pattern.dfy`, `Undo.dfy`, `AutoUndo.dfy`, `Records.dfy` | compare-and-set batches, undo, what AUTO guarantees |
| `Cron.dfy`, `Calendar.dfy` | the cron evaluator over the Gregorian calendar |
| `JsonExtract.dfy`, `Client.dfy`, `Router.dfy` | the JSON scanner, the rate limiter and retries, at-most-once delivery |

## Main results

- **Whole-run safety** (`WriteSafety.WholeRunSafety`). Over any sequence of commands from a new installation,
  each action executes at most once, a FULL_GATE action only after its exact count was supplied for it, and the
  loop, the audit log and the pending records stay consistent with what really executed. The handlers of
  `Agent.Installation` keep this as their object invariant.
- **What a run can change** (`WriteSafety.UntouchedRecordStays`, `PortalChangesOnlyByExecution`,
  `RecordVanishesAfterCount`). A record that no payload or rule named, no undo and no other writer touched stays
  as it was, and a record vanishes only by a delete or merge that had its count, or by what no count guards. Loop
  and sweep steps go through the same `handle_tool` as interactive calls, with a full answer ready should the write
  be executed; that they only stage is proved from its AUTO guard (`Engine.DriveOn`, `Engine.RunOneOn`).
- **Failed executions** (`Effects.FailsWholeIff`, `EndToEnd.BrokenOffBulk`, `RetriedBulk`, `RejectedBulk`). When a
  failure has changed nothing, what it leaves otherwise, and what a retry and a rejection make of it.
- **Loop accounting, bounds, plateaus** (`LoopProofs.RunAccounted`, `BoundedRuns`, `RunEscalates`,
  `NoDuplicateCreate`). Exact identities between steps, artifacts, counters and status after every run.
- **Reversal** (`Undo.PatternRoundTrip`, `AutoUndo.AutoIsReversible`, `AutoUpdateIsReversible`, `Undo.UndoConverges`,
  `CreateUndoConverges`). Compare-and-set or AUTO, then undo, is the identity on the whole portal if and only if a
  stated condition on the records holds.
- **Schedules** (`SweepRuns.OneBatchAlways`, `StampedLeavesByDecision`, `TicksConserved`, `NoFiringLost`), for any
  concrete plan, also one that `validate_plan` would refuse.
- **Cron** (`Cron.NextDueLiveness`). The 366-day cap hides no firing if and only if the expression restricts the
  weekday, leaves the day of the month `*`, or names a date that every year has. Windows compose
  (`Cron.WindowsCompose`).
- **Extraction undoes printing** (`JsonExtract.ExtractionUndoesPrinting`), for every object printed per
  section 2 of RFC 8259, in any surrounding text; cut anywhere, nothing is extracted.

## Where the code and its documentation differ

- `next_due` is documented to return None for an impossible date such as 30 February. It also returns None for
  29 February when the next one is more than 366 days away (`Cron.LeapDayIsHidden`; exactly when:
  `Cron.NextDueLiveness`).
- Undo of a create is documented to tolerate already-deleted records. It sees only the error text and looks for
  "404" or "not found" anywhere in it. An error of another status whose text matches passes for gone
  (`Undo.LockedRecordReadsAsGone`; exactly when: `Undo.CreateUndoneIff`), and a 404 whose text does not match
  keeps the undo failing although the record is gone (`Undo.GoneSucceedsIff`).
- The loop is documented to escalate rather than duplicate a create. It knows a create by its recorded id: when the
  response carried none or it could not be saved, a retry previews the create again (`EndToEnd.CreateRetriedIff`).
- Every tool with "create" in its name is recorded as undoable and may go through unasked. An undo of it can succeed
  only if the id was returned and saved and the call named an object type (`EndToEnd.CreateUndoableIff`; a note
  never does: `NoteCannotBeUndone`), and what it deletes is what was created only for `hubspot_create_object`
  (`CreateTakenBackIff`; undoing a pipeline may delete a deal: `PipelineUndoDeletesDeal`).
- A failed execution is documented to have changed nothing, so that its undo snapshot may be dropped. A bulk update
  of more than 100 records that raises after a chunk has changed records and is left without snapshot, audit entry
  or execution (`EndToEnd.SecondChunkOfTwo`; exactly when: `Effects.FailsWholeIff`). Under the shipped limit of 100
  unasked records no AUTO bulk update is concerned (`AutoUndo.AutoFailsWhole`).
- A failed execution is documented to leave the action pending. When HubSpot refuses every call, the action stays
  pending only if it is no pattern rule and its tool is none of the two batch tools, which list refusals in their
  result (`EndToEnd.RefusedStaysPendingIff`, `RefusedBulkIsExecuted`, `RefusedPatternIsExecuted`).
- A pattern write is staged CONFIRM even when no pre-image could be captured, where the ordinary path would be
  FULL_GATE (exactly when: `EndToEnd.PatternLowersGateIff`). Compare-and-set then writes only records whose changed fields are unset, and undo does not clear
  them again: `EndToEnd.UncapturedEntryIsKept` says exactly when it would.
- The bare `confirm` is documented to mirror the execute gate. It prompts for a count whenever a preview is
  destructive or covers several records, while `approve` goes by the tier, so that a FULL_GATE write of one record
  that is not destructive never gets past it (`EndToEnd.ConfirmStuck`; exactly when: `ConfirmReachesIff`).
- An undo that reports every captured value restored has restored the writable ones. A read-only property that
  the write did change stays changed; `AutoIsReversible` and `PatternRoundTrip` name this case in their conditions.
- A stricter policy may yield a lower tier: a never-auto tool is CONFIRM before the sensitive-property rule is
  reached (`Policy.NewListingLowersTier`; exactly when: `Policy.StricterPolicyHigherTierIff`). Fewer AUTO always
  holds.
- `validate_plan` accepts a step that names itself as a prerequisite; "earlier" is modelled as "earlier or equal"
  (`LoopProofs.OwnPrerequisiteIsAccepted`).

## Assumptions

HubSpot stores a value as its text and returns it so; a PATCH sets exactly the named properties and null clears
one. A single HTTP call that failed changed nothing (a tool that makes several may have changed something all the
same), nor does a tool outside the object family that the registry classifies as a read. The reads of a pattern
batch return what the portal holds at that moment; of the reads behind a preview this is assumed only where
`HonestReads` or `Honest` says so, and of deletes only where `HonestDeletes` does. A created record has a new id.
Action ids and schedule ids never collide. Commands run one at a time, other writers between them and between the
entries of a pattern batch. The clock does not go back.

## Model

The main results come first, then by module the code they are about and what else holds of it. The members of
`HandlerFacts` and `LoopFacts`, and those named `...Exactly`, describe one decision each from its inputs alone.

| member | source | states |
|---|---|---|
| WriteSafety.WholeRunSafety | src/hubspot_agent/handlers.py:550-585 | over every run: at most one execution per action, FULL_GATE only after its count, confirmed counts none or required, audit and loop name only executed actions |
| WriteSafety.RecordVanishesAfterCount | src/hubspot_agent/handlers.py:146-168 | over every run a record vanishes only by a delete or merge that names it, after the count was supplied for that action, by a tool of unknown reach, by an undo of a create, or by another writer |
| WriteSafety.UntouchedRecordStays | src/hubspot_agent/handlers.py:597-685 | over every run, a record that no payload or rule named whose execution completed or broke off, no undo and no other writer touched is exactly as it was |
| WriteSafety.PortalChangesOnlyByExecution | src/hubspot_agent/handlers.py:414 | a command that changes the portal executed a pending action, completely or in part, undid one, or was another writer; loops and sweeps call the same tools and only stage |
| Engine.DriveOn | src/hubspot_agent/orchestrator.py:980-1149 | a drive through `handle_tool` equals the staging loop and leaves portal, snapshots and audit as they were, because the AUTO branch is closed to a loop step |
| Engine.RunOneOn | src/hubspot_agent/orchestrator.py:1459-1550 | so does a schedule's turn |
| Effects.FailsWholeIff | src/hubspot_agent/handlers.py:661-685 | "a failed execution changed nothing, so its snapshot may go" holds for every portal and every way the calls go if and only if the payload fits one call: a bulk update of at most 100 records |
| EndToEnd.SecondChunkOfTwo | src/hubspot_agent/tools/hygiene.py:246-261 | 150 records, the second chunk raises: a record has changed, with no snapshot, audit entry or execution to tell, and the action is still pending |
| EndToEnd.BrokenOffBulk | src/hubspot_agent/handlers.py:671-685 | what any bulk update that raises after some chunks leaves: exactly the landed records of those chunks, no snapshot, no audit entry, the action pending |
| EndToEnd.RetriedBulk | src/hubspot_agent/handlers.py:550-585 | a retry with everything landing ends as if nothing had gone wrong, its snapshot holding the values from before the first attempt |
| EndToEnd.RejectedBulk | src/hubspot_agent/handlers.py:937-947 | a rejection leaves what was written, and no undo can change it |
| AutoUndo.AutoFailsWhole | src/hubspot_agent/policy.py:198-199 | under at most 100 unasked records, the shipped limit, an AUTO bulk update fails whole or not at all |
| EndToEnd.RefusedStaysPendingIff | src/hubspot_agent/handlers.py:658-675 | past the gate, an action of which HubSpot refuses every call stays pending if and only if it is no pattern rule and its tool is none of the two batch tools |
| EndToEnd.RefusedBulkIsExecuted | src/hubspot_agent/tools/hygiene.py:246-269 | failing instance: a bulk update with every record refused counts as executed, the portal unchanged |
| EndToEnd.RefusedPatternIsExecuted | src/hubspot_agent/handlers.py:795-868 | failing instance: a rule whose every re-read fails is cleared with nothing applied, no snapshot and no audit entry |
| EndToEnd.PatternLowersGateIff | src/hubspot_agent/safety.py:171-214 | pattern mode lowers an eligible write from FULL_GATE to CONFIRM exactly when the matched set is within the threshold and no pre-image was captured, or a captured property is sensitive under full_gate |
| EndToEnd.ConfirmReachesIff | src/hubspot_agent/cli.py:728-749 | confirm with the required count passes the gate if and only if no count is needed, the bare path prompts for one, or it is on record; approve with it always does |
| EndToEnd.ConfirmStuck | src/hubspot_agent/cli.py:610-619 | failing input: a single update whose pre-image could not be read is FULL_GATE, and no confirm ever executes it |
| LoopProofs.RunAccounted | src/hubspot_agent/orchestrator.py:990-1642 | after every run of a valid plan: artifacts are those of the first steps in order, and the counters are exact, status by status |
| LoopProofs.BoundedRuns | src/hubspot_agent/orchestrator.py:990-1025 | steps, iterations and previews of any run stay within the plan's limits |
| LoopProofs.NoDuplicateCreate | src/hubspot_agent/orchestrator.py:1608-1631 | once a step's artifact holds created ids, no later command previews that step again |
| EndToEnd.CreateRetriedIff | src/hubspot_agent/orchestrator.py:1608-1642 | for any create tool, after a retry verdict an executed create is previewed a second time if and only if its id was not recorded; otherwise the loop escalates |
| LoopProofs.RunEscalates | src/hubspot_agent/loop_controller.py:96-125 | in any run, escalation and acceptance happen exactly when the weighed verdicts say so |
| LoopProofs.RunTracks | src/hubspot_agent/loop_controller.py:96-103 | over a whole run the plateau count is the exact length of the last run of identical mismatches |
| LoopProofs.DriveScheduled | src/hubspot_agent/orchestrator.py:1120-1149 | unattended, each finished step is an artifact or a staged write, nothing waits, and the staged ids are exactly what was added to the store |
| Undo.PatternRoundTrip | src/hubspot_agent/handlers.py:795-863 | compare-and-set then undo is the identity on the portal if and only if every applied entry is covered |
| EndToEnd.PatternThenUndo | src/hubspot_agent/handlers.py:761-906 | approve then undo consumes the snapshot and restores the portal if and only if every applied entry was covered |
| AutoUndo.AutoCapturesAll | src/hubspot_agent/policy.py:192-197 | AUTO on a bulk update forces pairwise distinct ids and a captured pre-image for every target (pigeonhole) |
| AutoUndo.AutoIsReversible | src/hubspot_agent/policy.py:175-200 | an AUTO bulk update, as far as it landed, then undone with no other writer, restores the whole portal if and only if no read-only property of a landed record really changed |
| AutoUndo.AutoUpdateIsReversible | src/hubspot_agent/handlers.py:192-220 | the same for the single-record update: AUTO forces its pre-image, and undo restores the portal if and only if no read-only property really changed |
| EndToEnd.AutoThenUndo | src/hubspot_agent/handlers.py:409-435 | an unasked bulk update, as far as it landed, then undo restores the portal if and only if no read-only property of a landed record really changed |
| EndToEnd.AutoUpdateThenUndo | src/hubspot_agent/handlers.py:409-435 | the same for a single update |
| Undo.UndoConverges | src/hubspot_agent/cli.py:772-818 | over any attempts on an update the snapshot goes exactly when one succeeds, all writable values are back then, and a failed attempt keeps it whole |
| Undo.CreateUndoConverges | src/hubspot_agent/cli.py:820-883 | over any attempts on a create only created records go and stay gone, and the snapshot goes exactly with the first success |
| Undo.CreateRetryConverges | src/hubspot_agent/cli.py:836-851 | wherever earlier attempts stopped, one in which all remaining records are deleted and the 404s read as such succeeds and leaves none |
| Undo.CreateUndoneIff | src/hubspot_agent/cli.py:834-851 | a reported success has removed every created record if and only if no last answer about one was an error of another status read as gone |
| Undo.LockedRecordReadsAsGone | src/hubspot_agent/cli.py:839 | HTTP 423 about a locked record whose id contains 404 passes for gone |
| Undo.GoneSucceedsIff | src/hubspot_agent/cli.py:839 | with every created record gone already, undo succeeds if and only if each 404 text says so |
| EndToEnd.CreateUndoableIff | src/hubspot_agent/cli.py:820-855 | every create is recorded as undoable, but some undo can succeed if and only if the id was returned and saved and the call named an object type |
| EndToEnd.NoteCannotBeUndone | src/hubspot_agent/tools/engagements.py:61-83 | failing input: a note names no object type, so its undo always raises |
| EndToEnd.CreateTakenBackIff | src/hubspot_agent/cli.py:826-833 | an undo that goes through takes back what the create did, however HubSpot answers, if and only if the tool is hubspot_create_object |
| EndToEnd.PipelineUndoDeletesDeal | src/hubspot_agent/tools/pipelines.py:47-64 | failing input: undoing a new pipeline deletes the deal that has its id |
| SweepRuns.OneBatchAlways | src/hubspot_agent/orchestrator.py:1471-1543 | over every run of commands each stamped preview is queued in its schedule's live batch |
| SweepRuns.StampedLeavesByDecision | src/hubspot_agent/persistence.py:113-124 | a stamped preview leaves only by execution, rejection or expiry with its batch, never by the reaper or a loop |
| SweepRuns.TicksConserved | src/hubspot_agent/orchestrator.py:1498-1543 | through any commands, run times only grow, each run's window held a firing or passed the cap, and after an unskipped turn no firing is left behind |
| SweepRuns.WindowsPartition | src/hubspot_agent/cron.py:150-159 | the run windows are disjoint and leave no gap |
| SweepRuns.NoFiringLost | src/hubspot_agent/orchestrator.py:1479-1500 | every firing up to the last turn lies in the window of a run, or the schedule is held up by a pending batch and the next run's window will hold it |
| Cron.NextDueLiveness | src/hubspot_agent/cron.py:93-175 | next_due answers from every start if and only if the expression restricts the weekday, leaves the day `*`, or names a date every year has |
| Cron.LeapDayIsHidden | src/hubspot_agent/cron.py:162-175 | failing input: from 1 March 2001, None for 29 February, which comes in 2004 |
| Cron.IsDue | src/hubspot_agent/cron.py:138-159 | due if and only if a matching minute lies in (last, now], or the last run lies beyond the cap |
| Cron.NextDue | src/hubspot_agent/cron.py:162-175 | the least matching minute strictly after, within the cap, or None when there is none |
| Cron.DueIffNextDue | src/hubspot_agent/cron.py:138-175 | within the cap, due if and only if the next firing has come |
| JsonExtract.ExtractionUndoesPrinting | src/hubspot_agent/planning.py:44-71 | any prefix without a brace, any printed object, any suffix: exactly the object is returned |
| JsonExtract.CutObjectIsNotExtracted | src/hubspot_agent/planning.py:71 | an object cut anywhere yields None |
| Router.RouteTool | src/hubspot_agent/router.py:379-397 | over every failure of daemon, start, connection and answer a write reaches the handler at most once; a read at most three times, and that often in one case |
| Client.WindowBound | src/hubspot_agent/client.py:109-117 | every half-open 10-second window holds at most 100 recorded times |
| Client.HubSpotClient.Request | src/hubspot_agent/client.py:152-187 | a write is sent once, a read at most six times with at most two capped sleeps that the clock really passes; only 401 and 429 are sent again; after a 429 the record holds just the last attempt |
| Policy.StricterPolicyHigherTierIff | src/hubspot_agent/policy.py:175-200 | tiers grow with strictness if and only if the tool was not newly listed as never-auto while its sensitive write was in the full gate |
| Policy.NewListingLowersTier | src/hubspot_agent/policy.py:179-191 | failing instance: listing the update tool as never-auto takes a change of an amount from FULL_GATE to CONFIRM |
| Policy.NoOverrideWeakensTheGate | src/hubspot_agent/policy.py:75-115 | under every override file an AUTO write is undoable, not destructive, and touches no shipped protection |
| Agent.Installation.CallTool | src/hubspot_agent/handlers.py:317-462 | an interactive tool call keeps whole-run safety and one batch per schedule |
| Agent.Installation.DriveLoop | src/hubspot_agent/orchestrator.py:980-1149 | every step goes through `handle_tool`, yet the drive ends as the staging loop does and changes nothing but the pending store |
| Agent.Installation.DriveOnce | src/hubspot_agent/orchestrator.py:990-1149 | one pass: budget, count, refusals, tool call, and what its reply makes of the loop |
| Agent.Installation.ExecutePendingWrite | src/hubspot_agent/handlers.py:550-585 | the count gate and then the write, in every combination of tier, typed count and earlier confirmation, give exactly the specified world, report and error |
| Agent.Installation.HandleApprove | src/hubspot_agent/handlers.py:909-934 | an approval keeps both, whatever the count and the outcome |
| Agent.Installation.HandleConfirm | src/hubspot_agent/cli.py:728-749 | a bare confirm records a matching count, refuses a wrong one without executing, otherwise approves, and keeps both |
| Agent.Installation.HandleReject | src/hubspot_agent/handlers.py:937-947 | a rejection clears exactly that record, says whether it was there, and keeps both |
| Agent.Installation.HandleTool | src/hubspot_agent/handlers.py:317-462 | a mis-shaped call is refused, a read invoked, a write staged with its own risk, intent and impact, and executed at once only when its tier is AUTO and it is no loop step |
| Agent.Installation.HandleUndo | src/hubspot_agent/cli.py:858-885 | only a fully successful attempt consumes the snapshot and is audited; a failed one keeps it with whatever it restored; both are kept |
| Agent.Installation.OverlapGate | src/hubspot_agent/orchestrator.py:1471-1496 | skips exactly while previews of the live batch remain and the queue time has not passed; on expiry clears exactly those |
| Agent.Installation.PatternWrite | src/hubspot_agent/handlers.py:761-906 | the rule applied entry by entry with other writers in between, one batch snapshot of the applied pre-images, then clear, then an audit entry for each applied record that could be saved |
| Agent.Installation.PerformWrite | src/hubspot_agent/handlers.py:597-758 | snapshot before the write, then the stored payload replayed; on failure what was written stays, the snapshot is dropped if it can be and the action stays pending; on success the record is cleared and audited, a created id kept for undo |
| Agent.Installation.ReapStale | src/hubspot_agent/orchestrator.py:49-57 | the session-start reaper removes exactly the unstamped records older than a day, and keeps both |
| Agent.Installation.RunDueSchedule | src/hubspot_agent/orchestrator.py:1502-1544 | a due run sends every step through `handle_tool`, stamps what was staged, records the batch and advances the clock |
| Agent.Installation.RunLoop | src/hubspot_agent/orchestrator.py:1368-1411 | a terminal or stale loop is dropped, a waiting one resumed, a running one driven, a new one started only from a valid plan; safety and batches are kept |
| Agent.Installation.RunOneSchedule | src/hubspot_agent/orchestrator.py:1459-1550 | overlap gate, due gate, run: the outcome, schedule and store of one turn, the failing expression included |
| Agent.Installation.RunScheduledDue | src/hubspot_agent/orchestrator.py:1430-1456 | every schedule gets one turn in order, whatever the others do; safety and batches are kept |
| Agent.Installation.RunToolStep | src/hubspot_agent/orchestrator.py:794-845 | a loop step reaches `handle_tool` with its step number, through its retries |
| Agent.Installation.ScheduleAdd | src/hubspot_agent/cli.py:1124-1164 | a schedule is registered, its clock seeded, if and only if its expression compiles and every step names a tool; both are kept |
| Agent.Installation.VerifyLoop | src/hubspot_agent/orchestrator.py:1567-1648 | a verdict counts only when one is awaited, and drives on only after proceed or retry; safety and batches are kept |
| Calendar.DateComesRound | src/hubspot_agent/cron.py:25-26 | a date that every year has recurs within 366 days |
| Calendar.EpochWasThursday | src/hubspot_agent/cron.py:122-123 | the model's weekday numbering is the calendar's, Sunday being 0 |
| Calendar.EveryWeekdayOfEveryMonth | src/hubspot_agent/cron.py:25-26 | any 365 consecutive days hold every weekday of every month |
| Client.ExecuteReadStepWithRetry | src/hubspot_agent/orchestrator.py:916-946 | at most three attempts, every one but the last a transient error, each sleep the server's wish or the doubling backoff, capped at 60 |
| Client.HubSpotClient.BackOff | src/hubspot_agent/client.py:180-185 | a 429 empties the local window and the clock passes the capped wait |
| Client.HubSpotClient.EnforceRateLimit | src/hubspot_agent/client.py:109-117 | keeps the list the end of an ordered record in which a request and the hundredth before it are a window apart |
| Cron.CompileExactly | src/hubspot_agent/cron.py:93-107 | five accepted fields in their order and ranges; a day field restricts unless it is a bare star |
| Cron.CompileIsSound | src/hubspot_agent/cron.py:93-107 | five non-empty sets in range, full where the day fields are `*` |
| Cron.FieldExactly | src/hubspot_agent/cron.py:86-90 | a field is accepted exactly if every component is, and holds exactly their values |
| Cron.MatchesExactly | src/hubspot_agent/cron.py:115-130 | a minute of a date matches by minute, hour, month and the day rule, in calendar terms |
| Cron.ParseField | src/hubspot_agent/cron.py:86-90 | the grown set is the union of the components, and the first bad one is the error |
| Cron.PartOkIff | src/hubspot_agent/cron.py:41-70 | a component is accepted exactly if not blank, its step positive and its values in the field, in order |
| Cron.PartValues | src/hubspot_agent/cron.py:56-75 | a component holds exactly the values its base reaches in whole steps, 7 being a name of 0 in the day-of-week field |
| Cron.ScansExactly | src/hubspot_agent/cron.py:138-175 | both scans in plain minutes, with the cap of 527040 |
| Effects.BulkTwice | src/hubspot_agent/tools/hygiene.py:246-261 | after any part of a bulk update, the whole of it ends where it would have ended at once |
| Effects.OnlyNamedRecords | src/hubspot_agent/tools/objects.py:71-144 | invoking a stored payload, completed or broken off, changes, of the records that exist, only those it names |
| EndToEnd.CreateThenUndo | src/hubspot_agent/cli.py:820-851 | for any create tool, the delete's answer decides over record and snapshot if the call named an object type; else the undo does nothing |
| EndToEnd.FailedExecutionKeepsPending | src/hubspot_agent/handlers.py:661-685 | an execution without success leaves the action pending and unaudited, and reports it if it changed a record |
| EndToEnd.LoopHoldsCreatedId | src/hubspot_agent/orchestrator.py:1299-1315 | approve then continue brings the loop to its verdict holding exactly the recorded created ids |
| EndToEnd.MatchedEntries | src/hubspot_agent/safety.py:180-193 | each record becomes one entry, in order, with its own pre-image and changes |
| EndToEnd.ParkedLoopWaits | src/hubspot_agent/loop_state.py:211-228 | a loop that waits for a person is never dropped by time; continuing it changes nothing until the write is decided |
| EndToEnd.SnapshotGoesOnlyWhenUndone | src/hubspot_agent/cli.py:868-883 | a snapshot goes only when all its writable values are back or each created id is deleted or reported gone |
| EndToEnd.UncapturedEntryIsKept | src/hubspot_agent/safety.py:189 | with an empty pre-image a record is written only where the fields are unset, and undone exactly if the rule left them unset |
| Gate.PendingStore.ApplyWrite | src/hubspot_agent/safety.py:134-226 | stores one fresh record, tiered by policy, with its matched set when it is a pattern, and changes no other |
| Gate.PendingStore.Confirm | src/hubspot_agent/persistence.py:142-162 | true if and only if the record exists and the count is the required one; only then is it recorded |
| Gate.PendingStore.ReapExpired | src/hubspot_agent/persistence.py:106-139 | removes exactly the unstamped records older than a day, and counts them |
| HandlerFacts.ApproveExactly | src/hubspot_agent/handlers.py:550-585 | when approve asks for a count, refuses one, changes nothing, and clears the action |
| HandlerFacts.AuditsSaved | src/hubspot_agent/handlers.py:872-890 | an applied record has its audit entry exactly if that could be saved |
| HandlerFacts.AutoExactly | src/hubspot_agent/policy.py:175-200 | AUTO exactly for a reversible, unlisted, insensitive write within the limit, every update target captured |
| HandlerFacts.CoercedExactly | src/hubspot_agent/policy.py:75-115 | the shipped numbers and lists, and what each malformed or given setting makes of them |
| HandlerFacts.ConfirmExactly | src/hubspot_agent/cli.py:743-749 | when confirm prompts, refuses without a change, and records the count before it approves |
| HandlerFacts.FailureRecords | src/hubspot_agent/handlers.py:597-673 | after the gate: no call is made exactly when a needed snapshot cannot be saved; a failure audits nothing, keeps the action with its typed count, and leaves a snapshot exactly if it was needed and could not be dropped |
| HandlerFacts.FullGateExactly | src/hubspot_agent/policy.py:175-191 | FULL_GATE exactly for a destructive or irreversible write, or a sensitive one under full_gate of a tool that is not never-auto |
| HandlerFacts.InvokedExactly | src/hubspot_agent/tools/objects.py:71-144 | what each object tool of one call does when HubSpot takes it: exactly its record, exactly so |
| HandlerFacts.MatchedObjects | src/hubspot_agent/safety.py:180-193 | items that are no objects match nothing and displace nothing |
| HandlerFacts.PatternExactly | src/hubspot_agent/handlers.py:383-392 | a staged write is a pattern exactly when one was asked for interactively, of an update tool, setting no sensitive property |
| HandlerFacts.PatternRecords | src/hubspot_agent/handlers.py:852-868 | the batch's snapshot stands exactly if something was applied and it could be saved; the action goes either way |
| HandlerFacts.RawWriteIsGated | src/hubspot_agent/handlers.py:76-101 | every raw write is staged for the full gate, a raw DELETE as a destructive delete |
| HandlerFacts.ReadExactly | src/hubspot_agent/handlers.py:71-87 | every call is a read exactly when it is a raw call with none of the four writing verbs, or another tool, no object tool, neither listed nor with a writing scope; a read changes nothing, a mis-shaped bulk update is refused |
| HandlerFacts.ReapedExactly | src/hubspot_agent/persistence.py:113-137 | exactly the previews without origin older than twenty-four hours go |
| HandlerFacts.RegisteredExactly | src/hubspot_agent/cli.py:1124-1164 | a new schedule stands in front, its clock seeded, exactly when it compiles and names its tools |
| HandlerFacts.StagedVerbatim | src/hubspot_agent/safety.py:134-167 | the record holds the call verbatim, with the risk of its scopes, the intent of its name, and the count of its first list as the required one |
| HandlerFacts.StoredAsText | src/hubspot_agent/handlers.py:137-143 | text or not, a value is stored as its text, and null clears |
| HandlerFacts.SuccessRecords | src/hubspot_agent/handlers.py:597-758 | the snapshot, the audit entry and the cleared record after a success, and that nothing else changed |
| HandlerFacts.TypeChecked | src/hubspot_agent/tools/hygiene.py:104-111 | a merge without a type is one of contacts, any other object tool without a known one is refused and changes nothing |
| HandlerFacts.UndoRefuses | src/hubspot_agent/cli.py:764-775 | an action that is not undoable, a delete, a merge, or one with nothing to replay is left alone |
| HandlerFacts.UndoRestoresExactly | src/hubspot_agent/validation.py:149-171 | a consumed snapshot has put every captured value back that is writable by its last metadata, or by the seven system names without any; no undo touches another |
| JsonExtract.ExtractJson | src/hubspot_agent/planning.py:44-71 | returns the text from the first brace to the first point where the scanner closes, or None when it never does |
| Loop.AbsorbReply | src/hubspot_agent/orchestrator.py:1107-1149 | fail on a refusal, stage or park at a preview, take any other response for a finished read |
| Loop.LoopVerify | src/hubspot_agent/orchestrator.py:1585-1648 | proceed, retry, escalate or stop, with a create never retried |
| Loop.NextAction | src/hubspot_agent/loop_controller.py:68-125 | the decision and the two plateau fields, in the order of precedence |
| Loop.PrepareStep | src/hubspot_agent/orchestrator.py:990-1084 | a spent budget stops before anything is counted; then the step is counted, and refused when it is free text in a scheduled run or a placeholder has no value |
| Loop.ResolveArtifacts | src/hubspot_agent/sequential_dispatch.py:87-100 | the merge of the prerequisites' outputs, later ones winning |
| Loop.ResumeAwaitingApproval | src/hubspot_agent/orchestrator.py:1287-1328 | still pending, executed, or gone, told apart by pending store and audit log |
| Loop.ValidatePlan | src/hubspot_agent/planning.py:150-186 | no error if and only if there are steps, their numbers are unique and prerequisites are numbers of this or earlier steps |
| LoopFacts.DriveHoldsAnswers | src/hubspot_agent/orchestrator.py:1139-1149 | each step that an interactive drive finished was answered by a read, and its artifact in its place holds exactly that answer |
| LoopFacts.DriveIsDated | src/hubspot_agent/loop_state.py:171-173 | however a drive ends, the state carries its time |
| LoopFacts.FinishedIsCleared | src/hubspot_agent/orchestrator.py:1261-1273 | a new loop is driven exactly if valid and concrete, and its state is cleared exactly when the drive completes |
| LoopFacts.LooksBackTwoHundred | src/hubspot_agent/orchestrator.py:1299-1318 | an approval is seen exactly among the last two hundred audit entries |
| LoopFacts.ResumeHoldsIds | src/hubspot_agent/orchestrator.py:711-734 | the resumed step's artifact holds exactly the recorded ids, the first also under its first key |
| LoopFacts.StaleAfterTwoHours | src/hubspot_agent/loop_state.py:218-228 | a running loop is dropped exactly after two hours untouched, a finished one at any age |
| LoopFacts.ToolNotReached | src/hubspot_agent/orchestrator.py:995-1084 | any other step ends the drive whatever the tool would answer, stopped exactly on a spent budget, failed and counted otherwise |
| LoopFacts.ToolReached | src/hubspot_agent/orchestrator.py:990-1149 | a step within budget, concrete if scheduled, with every placeholder in some prerequisite's latest outputs is counted and reaches its tool, and the drive is what the answer makes of it |
| LoopFacts.VerdictOutcome | src/hubspot_agent/loop_controller.py:68-125 | in every run a verdict halts exactly on a spent budget, escalates on spent errors, a full plateau, an error or created records, moves on when verified, and otherwise drops the artifact and retries |
| LoopFacts.VerdictThenDrives | src/hubspot_agent/orchestrator.py:1601-1648 | after the verdict a running loop is driven on and any other only saved |
| LoopProofs.ArtifactByNumber | src/hubspot_agent/orchestrator.py:1026 | in a valid plan, looking an artifact up by step number finds that step's own, by first match or by last |
| LoopProofs.FreeTextRefused | src/hubspot_agent/orchestrator.py:1043-1059 | a scheduled free-text step stops the run and stages nothing |
| LoopProofs.ResolvedByLast | src/hubspot_agent/sequential_dispatch.py:87-100 | a placeholder resolves if and only if some prerequisite supplies it, and to the last one's value |
| Pattern.ExecutePatternWrite | src/hubspot_agent/handlers.py:795-842 | the batch's four accumulators and the portal, entry by entry, failures and drift included |
| Pattern.FateOf | src/hubspot_agent/handlers.py:795-842 | with distinct ids and no other writer an entry is applied, skipped or failed exactly as its re-read on the changed fields and its two calls say |
| Pattern.Partition | src/hubspot_agent/handlers.py:786-842 | applied, skipped and failed partition the matched entries as a multiset |
| Pattern.RunExplained | src/hubspot_agent/handlers.py:795-842 | applied records equal their old selves patched, all others are untouched, and the snapshot holds exactly the applied pre-images |
| Pattern.WrittenOnlyAsCaptured | src/hubspot_agent/handlers.py:819-842 | with any other writer, a record is written only if it read back as captured, and by exactly its changes |
| Policy.BuildBulkPreview | src/hubspot_agent/handlers.py:241-292 | what the reads captured; the warning appears if and only if a read was tried and none succeeded, and then the write is not undoable |
| Policy.CapturedExactly | src/hubspot_agent/handlers.py:249-273 | a pre-image is kept exactly of the records that some read of an object with an id returned, the last one |
| Policy.GenuineIntent | src/hubspot_agent/handlers.py:90-168 | whatever verb and scopes, a staged write of an object tool has the intent of its tool, a delete or merge is destructive, and its impact is its record count |
| Policy.IterPropertyKeys | src/hubspot_agent/policy.py:140-153 | exactly the property names set in the single and both bulk shapes |
| Records.Crm.UpdateObject | src/hubspot_agent/cli.py:795-806 | a done update patches exactly one record; any other answer changes nothing |
| Router.DaemonToolPath | src/hubspot_agent/router.py:271-319 | a write runs at most once over both attempts, and has not run when the fallback takes over |
| Router.ProcessLine | src/hubspot_agent/daemon.py:205-257 | the handler is reached exactly by a well-formed request of a known method that names no portal or the daemon's own |
| Router.RpcTool | src/hubspot_agent/router.py:242-251 | unreachable means nothing ran; a lost answer may hide one run |
| Sweep.RunOneKeepsBatch | src/hubspot_agent/orchestrator.py:1471-1543 | every turn keeps the batch exact; a run starts only when nothing of the previous batch waits |
| Sweep.TurnExactly | src/hubspot_agent/orchestrator.py:1471-1543 | when a turn is skipped, fails, runs or is not due, and what batch, clock and stamps it then leaves |
| Tools.IntentOfKind | src/hubspot_agent/handlers.py:146-160 | the intent read off the name is the right one for each object tool |
| Tools.ObjectToolsWrite | src/hubspot_agent/handlers.py:71-101 | by their registry scopes the object tools are always taken for writes, deletes and merges for destructive ones |
| Undo.AttemptRestores | src/hubspot_agent/cli.py:785-806 | what one attempt does to one captured property, success or not |
| Undo.CreateSucceedsIff | src/hubspot_agent/cli.py:839-845 | success exactly if each id was deleted or refused with a text holding 404, or "not found" in any case |
| Undo.FilterWritableProperties | src/hubspot_agent/validation.py:149-171 | splits the properties by the last metadata of each name, else by the fixed system names |
| Undo.UndoCreate | src/hubspot_agent/cli.py:820-851 | deletes exactly what HubSpot deleted before a raise, and succeeds if and only if there are ids and every answer counts as gone |
| Undo.UndoUpdate | src/hubspot_agent/cli.py:772-818 | restores exactly the acknowledged records' writable values, and succeeds only when every record that needs it was restored |

## Left out

- Agent.Installation.RunLoop: a valid plan with a free-text step is not started, because its low-risk branch executes what the agent classifies, outside the gate that is modelled; the scheduled refusal of such a step is modelled.
- Agent.Installation.RunOneSchedule: of the raises that the sweep catches, only an expression that does not compile is modelled; a raise in mid-drive leaves unstamped previews behind, for which the code claims nothing.
- Loop.ValidatePlan: the goal, agent, action, tool and capability checks are not modelled, only the ordering and uniqueness ones that the run theorems need.
- Effects.Invoke: the effect on records of tools outside the single-object, bulk-update and merge family (batch upsert, raw API, workflows, imports) is taken to be anything at all, also when they raise.
- HubSpot HTTP, OAuth, sockets, subprocesses, file locks and fsync: stores are maps updated atomically, and HubSpot's answers are parameters.
- Agent modules, prompts, keyword routing, traces, setup, capability probing and message formatting.
- The fence regex and `strip()` before the JSON scanner, and `int()` lexing in cron: the models start from the candidate text and from integer tokens.
- Numbers and literals in JSON are any text free of quotes and brackets, which includes every real one.
- `datetime` overflow at year 9999.
- Pacing and rate-header state of the loop, the loop log, `to_dict` and `from_dict`.
- Placeholder substitution in nested tool input: only whether every needed key is supplied.
- Audit writes are best effort and only 200 entries are read back, so an executed action may read as rejected; only the sound direction is proved.
- Process crashes between store and save, and concurrent approvals of one action.
- The moment between a pattern's re-read and its write, in which another writer could still slip in.
- A 429 reset starts a new record: `WindowBound` holds between resets.
- Token-refresh failure, and a `close()` that fails after a preview was stored, which can leave a second preview of the step.
- `confirm` takes its target as a parameter instead of choosing the newest file.
- A record without an id is read as the text "None" by the source and as the empty id here; both fail in a pattern batch. `hs_object_id` and surplus keys in bulk records.
- Pattern mode on the single-record tool, whose matched set is always empty.
- Records from before tiers exist only in `Gate.NeedsCount`; the whole-run theorem starts from a new installation.
