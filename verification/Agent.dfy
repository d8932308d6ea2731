/** The engine as the source runs it: objects updated in place by the command handlers
    (src/hubspot_agent/handlers.py, src/hubspot_agent/cli.py, src/hubspot_agent/orchestrator.py). */
module Agent {
  import opened Wrappers
  import opened Records
  import opened Tools
  import opened Policy
  import opened Cron
  import opened Gate
  import opened Effects
  import opened Loop
  import opened LoopProofs
  import opened Engine
  import opened WriteSafety
  import opened SweepRuns
  import Client
  import Pattern
  import Undo
  import Sweep

  /** The world and the reports after one more command. */
  ghost function Next(w: World, history: seq<Event>, cmd: Command): (World, seq<Event>) {
    (Apply(w, cmd).0, history + Apply(w, cmd).1)
  }

  /** What an installation keeps through every command: whole-run safety and one batch per schedule. */
  ghost predicate Kept(w: World, history: seq<Event>) {
    Safe(w, history) && BatchesSound(w)
  }

  lemma NextKept(w: World, history: seq<Event>, cmd: Command)
    requires Kept(w, history)
    ensures Kept(Next(w, history, cmd).0, Next(w, history, cmd).1)
  {
    ApplySafe(w, history, cmd);
    ApplyKeepsBatches(w, cmd);
  }

  lemma NextSweep(w: World, history: seq<Event>, tapes: seq<seq<Tries>>)
    requires Kept(w, history)
    ensures var (w', more) := SweepStores(w, 0, tapes);
            Next(w, history, SweepDue(tapes)) == (w', history + more) && Kept(w', history + more)
  {
    NextKept(w, history, SweepDue(tapes));
  }

  lemma NextReap(w: World, history: seq<Event>)
    requires Kept(w, history)
    ensures Next(w, history, ReapPending) == (w.(store := Reap(w.store, w.now)), history)
    ensures Kept(w.(store := Reap(w.store, w.now)), history)
  {
    NextKept(w, history, ReapPending);
    assert history + [] == history;
  }

  class Installation {
    const crm: Crm
    const store: PendingStore
    var snapshots: map<ActionId, Snapshot>
    var auditLog: seq<AuditEntry>
    var loop: Option<LoopView>
    var schedules: seq<Sweep.Schedule>
    var policy: ApprovalPolicy
    const schema: seq<Undo.SchemaEntry>
    const objectTypes: set<string>
    var now: Instant
    ghost var history: seq<Event>   // everything reported so far

    ghost function View(): World
      reads this, crm, store
    {
      World(crm.portal, store.View(), snapshots, auditLog, loop, schedules, policy, schema, objectTypes, now)
    }

    ghost predicate Valid()
      reads this, crm, store
    {
      Kept(View(), history)
    }

    constructor (portal: Portal, policy: ApprovalPolicy, schema: seq<Undo.SchemaEntry>, objectTypes: set<string>, now: Instant)
      ensures Valid() && Initial(View()) && View().portal == portal && history == [] && fresh(crm) && fresh(store)
    {
      crm := new Crm(portal);
      store := new PendingStore();
      snapshots, auditLog, loop, schedules := map[], [], None, [];
      this.policy, this.schema, this.objectTypes, this.now, history := policy, schema, objectTypes, now, [];
    }

    // ----- handlers.py -----

    /** `execute_pending_write` */
    method ExecutePendingWrite(id: ActionId, count: Option<int>, io: ExecIo) returns (events: seq<Event>, result: ExecResult)
      modifies this`snapshots, this`auditLog, crm, store
      ensures (View(), events, result) == Execute(old(View()), id, count, io)
    {
      if id !in store.entries {
        return [], NotFound;
      }
      var p := store.entries[id];
      var supplied: seq<Event> := [];
      if NeedsCount(p) {
        if count.None? {
          if p.confirmed != Some(p.required) { return [], CountNeeded; }
        } else {
          var ok := store.Confirm(id, count.value);
          if !ok { return [], WrongCount; }
          supplied := [CountSupplied(id, count.value)];
        }
      }
      events, result := PerformWrite(id, p, io);
      assert supplied == [] ==> supplied + events == events;
      events := supplied + events;
    }

    /** The part behind the gate: the pattern branch, or snapshot, write, bookkeeping. */
    method PerformWrite(id: ActionId, p: Pending, io: ExecIo) returns (events: seq<Event>, result: ExecResult)
      modifies this`snapshots, this`auditLog, crm, store
      ensures (View(), events, result) == Perform(old(View()), id, p, io)
    {
      if p.pattern.Some? {
        events, result := PatternWrite(id, p, io);
        return;
      }
      var snaps := !p.write.intent.OtherWrite?;
      var snap := Snapshot(p.write.intent, IsUndoable(p.write.intent, p.write.originals), p.write.payload.objectType,
                           p.write.originals, []);
      if snaps {
        if !io.snapshotSaved { return [], SnapshotFailed; }
        snapshots := snapshots[id := snap];
      }
      var before := crm.portal;
      var done := Invoke(objectTypes, before, p.write, io);
      crm.portal := done.portal;
      if !done.ok {
        // "Nothing changed": the snapshot goes, if it can; the pending action stays for a retry.
        if snaps && io.snapshotDropped { snapshots := snapshots - {id}; }
        assert snaps && io.snapshotDropped ==> snapshots == old(snapshots) - {id};
        return if crm.portal != before then [PartlyWritten(id, p)] else [], WriteFailed;
      }
      if snaps && p.write.intent.Create? && io.idReturned && io.createdSaved {
        snapshots := snapshots[id := snapshots[id].(createdIds := [io.createdId])];
      }
      store.Clear(id);
      if Answer(io.auditSaved, 0) { auditLog := auditLog + [Approved(id)]; }
      ghost var created := if p.write.intent.Create? then RecordedIds(io) else [];
      assert snaps ==> snapshots == old(snapshots)[id := snap.(createdIds := created)];
      assert auditLog == old(auditLog) + if Answer(io.auditSaved, 0) then [Approved(id)] else [];
      return [Executed(id, p, {})], Success;
    }

    /** `_execute_pattern_write`, with its batch snapshot and its audit entry per applied record. */
    method PatternWrite(id: ActionId, p: Pending, io: ExecIo) returns (events: seq<Event>, result: ExecResult)
      requires p.pattern.Some?
      modifies this`snapshots, this`auditLog, crm, store
      ensures (View(), events, result) == Perform(old(View()), id, p, io)
    {
      var matched := p.pattern.value;
      var turns := Turns(io.turns, |matched|);
      var applied, skipped, failed, originals := Pattern.ExecutePatternWrite(crm, matched, turns);
      if originals != map[] && io.snapshotSaved {
        snapshots := snapshots[id := Snapshot(Update, true, p.write.payload.objectType, originals, [])];
      }
      store.Clear(id);
      AuditRecords(id, applied, io.auditSaved);
      return [Executed(id, p, WrittenByOthers(turns))], Success;
    }

    method AuditRecords(id: ActionId, applied: seq<RecordId>, saved: seq<bool>)
      modifies this`auditLog
      ensures auditLog == old(auditLog) + RecordAudits(id, applied, saved)
    {
      for i := 0 to |applied|
        invariant auditLog == old(auditLog) + RecordAudits(id, applied[..i], saved)
      {
        assert applied[..i + 1][..i] == applied[..i];
        if Answer(saved, i) { auditLog := auditLog + [ApprovedRecord(id, applied[i])]; }
      }
      assert applied[..|applied|] == applied;
    }

    /** `handle_tool`, interactive (`loopStep` absent) or from a step of a loop or a scheduled run. */
    method HandleTool(outcome: ToolOutcome, pattern: bool, loopStep: Option<int>) returns (events: seq<Event>, reply: ToolReply)
      modifies this`snapshots, this`auditLog, crm, store
      ensures (View(), events, reply) == Engine.HandleTool(old(View()), outcome, pattern, loopStep)
    {
      if outcome.Refused? {
        return [], Refusal(outcome.error);
      }
      var write := WriteIn(outcome);
      if !WellShaped(write) {
        return [], Refusal("validation");
      }
      if !IsWrite(outcome.call) {
        if !KindOf(write.tool).OtherTool? {
          crm.portal := Invoke(objectTypes, crm.portal, write, outcome.io).portal;
        }
        return [], ReadDone(outcome.result);
      }
      var usePattern := false;
      if pattern && loopStep.None? {
        usePattern := PatternEligible(write, policy);
      }
      var id := store.ApplyWrite(write, policy, usePattern, loopStep, now);
      if store.entries[id].tier == Some(AUTO) && loopStep.None? {
        var result;
        events, result := ExecutePendingWrite(id, None, outcome.io);
        return events, if result.Success? then AppliedNow(id) else Refusal("auto-apply failed");
      }
      return [], Previewed(id);
    }

    /** An interactive tool call. */
    method CallTool(outcome: ToolOutcome, pattern: bool) returns (events: seq<Event>, reply: ToolReply)
      requires Valid()
      modifies this, crm, store
      ensures Valid() && (View(), history) == Next(old(View()), old(history), Tool(outcome, pattern))
      ensures history == old(history) + events
    {
      NextKept(View(), history, Tool(outcome, pattern));
      events, reply := HandleTool(outcome, pattern, None);
      history := history + events;
    }

    /** `handle_approve` */
    method HandleApprove(id: ActionId, count: Option<int>, io: ExecIo) returns (events: seq<Event>, result: ExecResult)
      requires Valid()
      modifies this, crm, store
      ensures Valid() && (View(), history) == Next(old(View()), old(history), Approve(id, count, io))
      ensures history == old(history) + events
    {
      NextKept(View(), history, Approve(id, count, io));
      events, result := ExecutePendingWrite(id, count, io);
      history := history + events;
    }

    /** `handle_reject` */
    method HandleReject(id: ActionId) returns (found: bool)
      requires Valid()
      modifies this, store
      ensures Valid() && (View(), history) == Next(old(View()), old(history), Reject(id))
      ensures found <==> id in old(store.entries)
    {
      NextKept(View(), history, Reject(id));
      found := id in store.entries;
      if found { store.Clear(id); }
      assert !found ==> store.entries - {id} == store.entries;
      assert history + [] == history;
    }

    // ----- cli.py -----

    /** `_handle_confirm`, `id` being the newest pending action. */
    method HandleConfirm(id: ActionId, count: int, io: ExecIo) returns (events: seq<Event>, result: ExecResult)
      requires Valid()
      modifies this, crm, store
      ensures Valid() && (View(), history) == Next(old(View()), old(history), ConfirmNewest(id, count, io))
      ensures history == old(history) + events
    {
      NextKept(View(), history, ConfirmNewest(id, count, io));
      events, result := ConfirmAndExecute(id, count, io);
      history := history + events;
    }

    method ConfirmAndExecute(id: ActionId, count: int, io: ExecIo) returns (events: seq<Event>, result: ExecResult)
      modifies this`snapshots, this`auditLog, crm, store
      ensures (View(), events, result) == Confirm(old(View()), id, count, io)
    {
      var supplied: seq<Event> := [];
      if id in store.entries && PromptsForCount(store.entries[id]) {
        var ok := store.Confirm(id, count);
        if !ok { return [], WrongCount; }
        supplied := [CountSupplied(id, count)];
      }
      events, result := ExecutePendingWrite(id, None, io);
      assert supplied == [] ==> supplied + events == events;
      events := supplied + events;
    }

    /** `_handle_undo` */
    method HandleUndo(id: ActionId, replies: seq<Undo.DeleteReply>) returns (acked: set<RecordId>, raised: bool, events: seq<Event>)
      requires Valid()
      modifies this, crm
      ensures Valid() && (View(), history) == Next(old(View()), old(history), UndoIt(id, acked, raised, replies))
      ensures history == old(history) + events
    {
      ghost var w := View();
      acked, raised, events := TryUndo(id, replies);
      NextKept(w, history, UndoIt(id, acked, raised, replies));
      history := history + events;
    }

    /** One attempt: only if it fully succeeds does it consume the snapshot. */
    method TryUndo(id: ActionId, replies: seq<Undo.DeleteReply>) returns (acked: set<RecordId>, raised: bool, events: seq<Event>)
      modifies this`snapshots, this`auditLog, crm
      ensures (View(), events) == UndoAction(old(View()), id, acked, raised, replies)
    {
      acked, raised, events := {}, false, [];
      if id !in snapshots || !snapshots[id].undoable {
        return;
      }
      var snap := snapshots[id];
      var succeeded := false;
      if snap.intent.Update? {
        if snap.originals == map[] { return; }
        succeeded, raised, acked := Undo.UndoUpdate(crm, schema, snap.originals);
        assert acked * Undo.Needed(schema, snap.originals) * old(crm.portal).Keys == acked;
        events := [UndoTried(id, acked, false)];
      } else if snap.intent.Create? {
        if snap.createdIds == [] || snap.target.None? || snap.target.value !in objectTypes { return; }
        var rs := PaddedReplies(replies, |snap.createdIds|);
        var after;
        succeeded, after := Undo.UndoCreate(crm.portal, snap.createdIds, rs);
        crm.portal := after;
        events := [UndoTried(id, Undo.DeletedIds(snap.createdIds, rs), true)];
      } else {
        return;
      }
      if succeeded {
        snapshots := snapshots - {id};
        auditLog := auditLog + [UndoneAction(id)];
      }
    }

    /** `_handle_abandon` */
    method AbandonLoop()
      requires Valid()
      modifies this
      ensures Valid() && (View(), history) == Next(old(View()), old(history), LoopAbandon)
    {
      NextKept(View(), history, LoopAbandon);
      loop := None;
      assert history + [] == history;
    }

    /** `_handle_schedule_add`; `sid` is a new uuid. */
    method ScheduleAdd(sid: ScheduleId, cron: seq<Field>, plan: Plan) returns (ok: bool)
      requires Valid() && FreshSchedule(View(), sid)
      modifies this
      ensures Valid() && (View(), history) == Next(old(View()), old(history), AddSchedule(sid, cron, plan))
      ensures ok <==> Compile(cron).Ok? && Concrete(plan)
    {
      NextKept(View(), history, AddSchedule(sid, cron, plan));
      ok := Compile(cron).Ok? && Concrete(plan);
      if ok { schedules := [Sweep.Schedule(sid, cron, plan, Some(now), None)] + schedules; }
      assert history + [] == history;
    }

    /** `_handle_schedule_remove` */
    method ScheduleRemove(sid: ScheduleId)
      requires Valid()
      modifies this
      ensures Valid() && (View(), history) == Next(old(View()), old(history), RemoveSchedule(sid))
    {
      NextKept(View(), history, RemoveSchedule(sid));
      schedules := Remaining(schedules, sid);
      assert history + [] == history;
    }

    // ----- orchestrator.py -----

    /** The session start's `reap_expired`. */
    method ReapStale() returns (removed: nat)
      requires Valid()
      modifies this, store
      ensures Valid() && (View(), history) == Next(old(View()), old(history), ReapPending)
      ensures removed == |old(store.entries)| - |store.entries|
    {
      NextReap(View(), history);
      removed := store.ReapExpired(now);
    }

    /** `_run_loop_tool_step` inside its retry wrapper. */
    method RunToolStep(step: PlanStep, tries: Tries) returns (events: seq<Event>, reply: ToolReply)
      modifies this`snapshots, this`auditLog, crm, store
      ensures (View(), events, reply) == CallOn(old(View()), step, tries)
    {
      var settled, tried, sleeps := Client.ExecuteReadStepWithRetry(tries);
      if settled.Raised? {
        return [], Refusal(settled.error);
      }
      events, reply := HandleTool(settled.value, false, Some(step.number));
    }

    /** One pass of the loop body; `go` says whether the driver carries on. */
    method DriveOnce(state: LoopState, tries: Tries) returns (events: seq<Event>, go: bool)
      requires state.currentStep < |state.plan.steps|
      modifies this`snapshots, this`auditLog, crm, store, state
      ensures (state.View(), View(), events, go) == StepOn(old(state.View()), old(View()), tries)
    {
      var step := state.plan.steps[state.currentStep];
      var ready := PrepareStep(state);
      if !ready {
        return [], false;
      }
      var reply;
      events, reply := RunToolStep(step, tries);
      go := AbsorbReply(state, step, reply);
    }

    /** `_drive_loop` */
    method DriveLoop(state: LoopState, tape: seq<Tries>) returns (events: seq<Event>)
      requires state.currentStep + |tape| >= |state.plan.steps|
      modifies this`snapshots, this`auditLog, crm, store, state
      ensures (state.View(), View(), events) == DriveOn(old(state.View()), old(View()), tape)
    {
      events := [];
      ghost var goal := DriveOn(state.View(), View(), tape);
      var rest := tape;
      while state.currentStep < |state.plan.steps|
        invariant state.currentStep + |rest| >= |state.plan.steps|
        invariant DriveOn(state.View(), View(), rest) == goal && events == []
        decreases |state.plan.steps| - state.currentStep
      {
        DriveUnfolds(state.View(), View(), rest);
        var more, go := DriveOnce(state, rest[0]);
        events := events + more;
        assert events == [];
        if !go {
          ghost var s1, w1 := state.View(), View();
          assert goal == (s1.(updatedAt := w1.now), w1, []);
          state.updatedAt := now;
          assert state.View() == s1.(updatedAt := now) && View() == w1;
          return;
        }
        rest := rest[1..];
      }
      state.status, state.updatedAt := Completed, now;
    }

    /** Drive and save; a completed loop's state is cleared. */
    method DriveAndSave(state: LoopState, tape: seq<Tries>) returns (events: seq<Event>)
      modifies this`loop, this`snapshots, this`auditLog, crm, store, state
      ensures (View(), events) == DriveWorld(old(View()), old(state.View()), tape)
    {
      events := DriveLoop(state, Padded(tape, |state.plan.steps|));
      loop := if state.status.Completed? then None else Some(state.View());
    }

    /** `run_loop` */
    method RunLoop(plan: Option<Plan>, tape: seq<Tries>) returns (events: seq<Event>)
      requires Valid()
      modifies this, crm, store
      ensures Valid() && (View(), history) == Next(old(View()), old(history), LoopRun(plan, tape))
    {
      NextKept(View(), history, LoopRun(plan, tape));
      events := ResumeOrStart(plan, tape);
      history := history + events;
    }

    /** Resume what is stored, or start a valid concrete plan. */
    method ResumeOrStart(plan: Option<Plan>, tape: seq<Tries>) returns (events: seq<Event>)
      modifies this`loop, this`snapshots, this`auditLog, crm, store
      ensures (View(), events) == RunLoopCommand(old(View()), plan, tape)
    {
      events := [];
      var existing := loop;
      if existing.Some? && (Terminal(existing.value.status) || Stale(existing.value, now)) {
        loop, existing := None, None;
      }
      if existing.Some? {
        var state := new LoopState.Load(existing.value);
        if state.status.AwaitingApproval? {
          if state.currentStep < |state.plan.steps| {
            var id := state.pendingActionId;
            var createdIds := if id.Some? && id.value in snapshots then snapshots[id.value].createdIds else [];
            ResumeAwaitingApproval(state, store, auditLog, createdIds, now);
            loop := Some(state.View());
          }
          return;
        }
        if state.status.AwaitingVerification? { return; }
        events := DriveAndSave(state, tape);
        return;
      }
      if plan.None? { return; }
      var errors := ValidatePlan(plan.value);
      if errors > 0 || !Concrete(plan.value) { return; }
      var state := new LoopState(plan.value, false, now);
      events := DriveAndSave(state, tape);
    }

    /** `loop_verify` */
    method VerifyLoop(v: Verdict, tape: seq<Tries>) returns (events: seq<Event>)
      requires Valid()
      modifies this, crm, store
      ensures Valid() && (View(), history) == Next(old(View()), old(history), LoopVerdict(v, tape))
    {
      NextKept(View(), history, LoopVerdict(v, tape));
      events := JudgeStep(v, tape);
      history := history + events;
    }

    method JudgeStep(v: Verdict, tape: seq<Tries>) returns (events: seq<Event>)
      modifies this`loop, this`snapshots, this`auditLog, crm, store
      ensures (View(), events) == VerifyCommand(old(View()), v, tape)
    {
      events := [];
      if loop.None? || !loop.value.status.AwaitingVerification? || loop.value.current >= |loop.value.plan.steps| {
        return;
      }
      var state := new LoopState.Load(loop.value);
      var drives := LoopVerify(state, v, now);
      if drives {
        events := DriveAndSave(state, tape);
      } else {
        loop := Some(state.View());
      }
    }

    /** The gate of `_run_one_schedule`: `ok` is false when the schedule is skipped. */
    method OverlapGate(s: Sweep.Schedule) returns (ok: bool, s1: Sweep.Schedule)
      modifies store
      ensures Sweep.PassGate(s, old(store.View()), policy.scheduleQueueTtlDays, now)
           == if ok then Some((s1, store.View())) else None
      ensures !ok ==> store.View() == old(store.View())
    {
      s1 := s;
      if s.lastBatch.None? || !Sweep.Live(s.lastBatch.value) {
        return true, s;
      }
      var batch := s.lastBatch.value;
      var still: set<ActionId> := {};
      for i := 0 to |batch.ids|
        invariant still == set id | id in batch.ids[..i] && id in store.entries
      {
        assert batch.ids[..i + 1] == batch.ids[..i] + [batch.ids[i]];
        if batch.ids[i] in store.entries { still := still + {batch.ids[i]}; }
      }
      assert batch.ids[..|batch.ids|] == batch.ids;
      if still == {} {
        return true, s;
      }
      if !Sweep.TtlExpired(batch, policy.scheduleQueueTtlDays, now) {
        return false, s;
      }
      var todo := still;
      while todo != {}
        invariant todo <= still
        invariant store.View() == Sweep.Cleared(old(store.View()), still - todo)
        decreases todo
      {
        var id :| id in todo;
        store.Clear(id);
        todo := todo - {id};
      }
      assert still - todo == still == Sweep.StillPending(s, old(store.View()));
      return true, s.(lastBatch := Some(batch.(status := Sweep.BatchExpired)));
    }

    method StampAll(staged: seq<ActionId>, sid: ScheduleId)
      modifies store
      ensures store.View() == Sweep.Stamped(old(store.View()), staged, sid, now)
    {
      for i := 0 to |staged|
        invariant store.View() == Sweep.Stamped(old(store.View()), staged[..i], sid, now)
      {
        assert staged[..i + 1] == staged[..i] + [staged[i]];
        store.Stamp(staged[i], sid, now);
      }
      assert staged[..|staged|] == staged;
    }

    /** The run of a due schedule: drive its plan unattended, stamp what it staged, record the batch. */
    method RunDueSchedule(s: Sweep.Schedule, tape: seq<Tries>) returns (s': Sweep.Schedule, events: seq<Event>)
      modifies this`snapshots, this`auditLog, crm, store
      ensures (s', View(), events) == RunDueOn(old(View()), s, tape)
    {
      var state := new LoopState(s.plan, true, now);
      events := DriveLoop(state, Padded(tape, |s.plan.steps|));
      var staged := state.stagedActionIds;
      StampAll(staged, s.id);
      var status := if staged != [] then Sweep.BatchPending else Sweep.BatchDone;
      s' := s.(lastBatch := Some(Sweep.Batch(Some(now), status, staged)), lastRunAt := Some(now));
    }

    /** One schedule's turn in `run_scheduled_due`. */
    method RunOneSchedule(s: Sweep.Schedule, tape: seq<Tries>)
      returns (s': Sweep.Schedule, events: seq<Event>, outcome: Sweep.Outcome)
      modifies this`snapshots, this`auditLog, crm, store
      ensures (s', View(), events, outcome) == RunOneOn(old(View()), s, tape)
    {
      var ok, s1 := OverlapGate(s);
      if !ok {
        return s, [], Sweep.Skipped;
      }
      var due := IsDue(s.cron, s.lastRunAt, now);
      match due {
        case Err(_) =>
          return s1.(lastBatch := Some(Sweep.Batch(Some(now), Sweep.BatchFailed, []))), [], Sweep.RunFailed;
        case Ok(isDue) =>
          if !isDue { return s1, [], Sweep.NotDue; }
          s', events := RunDueSchedule(s1, tape);
          return s', events, Sweep.Ran;
      }
    }

    /** `run_scheduled_due` */
    method RunScheduledDue(tapes: seq<seq<Tries>>) returns (events: seq<Event>)
      requires Valid()
      modifies this, crm, store
      ensures Valid() && (View(), history) == Next(old(View()), old(history), SweepDue(tapes))
      ensures history == old(history) + events
    {
      NextSweep(View(), history, tapes);
      events := SweepSchedules(tapes);
      history := history + events;
    }

    /** The `i`th schedule's turn, saved and reported. */
    method TakeTurn(i: nat, tape: seq<Tries>) returns (events: seq<Event>)
      requires i < |schedules|
      modifies this`schedules, this`snapshots, this`auditLog, crm, store
      ensures var (w1, e) := AfterTurn(old(View()), i, tape); View() == w1 && events == [e]
    {
      var s := schedules[i];
      var s', more, outcome := RunOneSchedule(s, tape);
      ghost var w1 := View();
      schedules := schedules[i := s'];
      assert View() == w1.(schedules := w1.schedules[i := s']);
      events := more + [Swept(s.id, outcome, now)];
    }

    /** Every schedule gets its turn, whatever the others do. */
    method SweepSchedules(tapes: seq<seq<Tries>>) returns (events: seq<Event>)
      modifies this`schedules, this`snapshots, this`auditLog, crm, store
      ensures (View(), events) == SweepStores(old(View()), 0, tapes)
    {
      events := [];
      ghost var goal := Finished(View(), 0, tapes, []);
      for i := 0 to |schedules|
        invariant |schedules| == |old(schedules)|
        invariant Finished(View(), i, tapes, events) == goal
      {
        FinishedStep(View(), i, tapes, events);
        var more := TakeTurn(i, TapeAt(tapes, i));
        events := events + more;
      }
      assert events + [] == events;
      assert [] + SweepStores(old(View()), 0, tapes).1 == SweepStores(old(View()), 0, tapes).1;
    }
  }

  /** A drive begins with its first step. */
  lemma DriveUnfolds(s: LoopView, w: World, tape: seq<Tries>)
    requires s.current < |s.plan.steps| && s.current + |tape| >= |s.plan.steps|
    ensures var (s1, w1, events, go) := StepOn(s, w, tape[0]);
            && events == []
            && (!go ==> DriveOn(s, w, tape) == (s1.(updatedAt := w1.now), w1, []))
            && (go ==> s1.current + |tape| - 1 >= |s1.plan.steps| && DriveOn(s, w, tape) == DriveOn(s1, w1, tape[1..]))
  {
    StepStages(s, w, tape[0]);
  }

  /** Where a sweep that has reached the `i`th schedule with these reports ends. */
  ghost function Finished(w: World, i: nat, tapes: seq<seq<Tries>>, events: seq<Event>): (World, seq<Event>)
    requires i <= |w.schedules|
  {
    var (w', rest) := SweepStores(w, i, tapes);
    (w', events + rest)
  }

  lemma FinishedStep(w: World, i: nat, tapes: seq<seq<Tries>>, events: seq<Event>)
    requires i < |w.schedules|
    ensures var (w1, e) := AfterTurn(w, i, TapeAt(tapes, i));
            Finished(w, i, tapes, events) == Finished(w1, i + 1, tapes, events + [e])
  {
    var (w1, e) := AfterTurn(w, i, TapeAt(tapes, i));
    Regroup(events, e, SweepStores(w1, i + 1, tapes).1);
  }
}
