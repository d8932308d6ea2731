/** Everything the agent keeps for one portal, and every command that moves it: tool writes, approve,
    confirm, reject, undo, the loop, the sweep and the reaper. HubSpot's answers are parameters. */
module Engine {
  import opened Wrappers
  import opened Records
  import opened Tools
  import opened Policy
  import opened Cron
  import opened Gate
  import opened Effects
  import opened Loop
  import opened LoopProofs
  import Client
  import Pattern
  import Undo
  import Sweep

  /** An undo snapshot with its metadata; `target` is the object type that the call named. */
  datatype Snapshot = Snapshot(intent: Intent, undoable: bool, target: Option<string>,
                               originals: map<RecordId, Values>, createdIds: seq<RecordId>)

  datatype World = World(
    portal: Portal, store: Store, snapshots: map<ActionId, Snapshot>, audit: seq<AuditEntry>,
    loop: Option<LoopView>, schedules: seq<Sweep.Schedule>,
    policy: ApprovalPolicy, schema: seq<Undo.SchemaEntry>, objectTypes: set<string>, now: Instant)

  /** What commands report: a typed count that matched, a pending action that executed (and the records
      that others wrote meanwhile), one that broke off with records written, an undo attempt and the
      records it restored, or deleted, the outcome of a schedule's turn in a sweep, and the records that
      another writer changed or removed. */
  datatype Event =
    | CountSupplied(id: ActionId, count: int)
    | Executed(id: ActionId, action: Pending, others: set<RecordId>)
    | PartlyWritten(id: ActionId, action: Pending)
    | UndoTried(id: ActionId, records: set<RecordId>, deletes: bool)
    | Swept(schedule: ScheduleId, outcome: Sweep.Outcome, at: Instant)
    | Foreign(written: set<RecordId>, gone: set<RecordId>)

  datatype ExecResult = NotFound | CountNeeded | WrongCount | SnapshotFailed | WriteFailed | Success

  // ----- Executing a pending write -----

  function Drop(st: Store, id: ActionId): Store {
    st.(entries := st.entries - {id})
  }

  function Confirmed(st: Store, id: ActionId, count: int): Store
    requires id in st.entries
  {
    st.(entries := st.entries[id := st.entries[id].(confirmed := Some(count))])
  }

  /** The turns of a batch of `n` entries; a missing one is a failed read. */
  function Turns(turns: seq<Pattern.Turn>, n: nat): (r: seq<Pattern.Turn>)
    ensures |r| == n
  {
    seq(n, i requires 0 <= i < n => if i < |turns| then turns[i] else Pattern.Turn(map[], Pattern.ReadFails))
  }

  /** The records that other writers stored during a batch. */
  function WrittenByOthers(turns: seq<Pattern.Turn>): set<RecordId> {
    set t, id | t in turns && id in t.others :: id
  }

  /** One audit entry per applied record, as far as it could be saved. */
  function RecordAudits(id: ActionId, records: seq<RecordId>, saved: seq<bool>): seq<AuditEntry> {
    if records == [] then []
    else
      var n := |records| - 1;
      RecordAudits(id, records[..n], saved) + if Answer(saved, n) then [ApprovedRecord(id, records[n])] else []
  }

  /** The write itself, its gate already passed: the stored payload, or the stored rule. */
  function Perform(w: World, id: ActionId, p: Pending, io: ExecIo): (World, seq<Event>, ExecResult) {
    if p.pattern.Some? then
      var turns := Turns(io.turns, |p.pattern.value|);
      var b := Pattern.Run(w.portal, p.pattern.value, turns);
      (w.(portal := b.portal, store := Drop(w.store, id),
          snapshots := if b.originals != map[] && io.snapshotSaved
                       then w.snapshots[id := Snapshot(Update, true, p.write.payload.objectType, b.originals, [])] else w.snapshots,
          audit := w.audit + RecordAudits(id, b.applied, io.auditSaved)),
       [Executed(id, p, WrittenByOthers(turns))], Success)
    else
      var snaps := !p.write.intent.OtherWrite?;
      if snaps && !io.snapshotSaved then (w, [], SnapshotFailed)
      else
        var done := Invoke(w.objectTypes, w.portal, p.write, io);
        var snap := Snapshot(p.write.intent, IsUndoable(p.write.intent, p.write.originals), p.write.payload.objectType,
                             p.write.originals, []);
        if !done.ok then
          // Whatever the tool had written by then stays; the snapshot is dropped, or left if that fails.
          (w.(portal := done.portal,
              snapshots := if !snaps then w.snapshots
                           else if io.snapshotDropped then w.snapshots - {id} else w.snapshots[id := snap]),
           if done.portal != w.portal then [PartlyWritten(id, p)] else [], WriteFailed)
        else
          var created := if p.write.intent.Create? then RecordedIds(io) else [];
          (w.(portal := done.portal, store := Drop(w.store, id),
              snapshots := if snaps then w.snapshots[id := snap.(createdIds := created)] else w.snapshots,
              audit := w.audit + if Answer(io.auditSaved, 0) then [Approved(id)] else []),
           [Executed(id, p, {})], Success)
  }

  /** What the count gate asks for, given the count typed now and the one on record. */
  predicate GatePasses(p: Pending, count: Option<int>) {
    !NeedsCount(p) || (if count.Some? then count.value == p.required else p.confirmed == Some(p.required))
  }

  /** `execute_pending_write`: the count gate, then the write. */
  function Execute(w: World, id: ActionId, count: Option<int>, io: ExecIo): (World, seq<Event>, ExecResult) {
    if id !in w.store.entries then (w, [], NotFound)
    else
      var p := w.store.entries[id];
      if !NeedsCount(p) then Perform(w, id, p, io)
      else match count
        case None => if p.confirmed == Some(p.required) then Perform(w, id, p, io) else (w, [], CountNeeded)
        case Some(n) =>
          if n != p.required then (w, [], WrongCount)
          else
            var (w', events, result) := Perform(w.(store := Confirmed(w.store, id, n)), id, p, io);
            (w', [CountSupplied(id, n)] + events, result)
  }

  /** `hubspot confirm`, with the newest pending action as its target. */
  function Confirm(w: World, id: ActionId, count: int, io: ExecIo): (World, seq<Event>, ExecResult) {
    if id in w.store.entries && PromptsForCount(w.store.entries[id]) then
      if count != w.store.entries[id].required then (w, [], WrongCount)
      else
        var (w', events, result) := Execute(w.(store := Confirmed(w.store, id, count)), id, None, io);
        (w', [CountSupplied(id, count)] + events, result)
    else Execute(w, id, None, io)
  }

  /** `handle_tool`: a read is invoked at once; a write is staged, and executed at once only when its
      tier is AUTO and it is no loop step. So a loop step touches nothing but the pending store. */
  function HandleTool(w: World, outcome: ToolOutcome, pattern: bool, loopStep: Option<int>)
    : (r: (World, seq<Event>, ToolReply))
    ensures loopStep.Some? ==> r.1 == [] && r.0 == w.(store := r.0.store) && !r.2.AppliedNow?
  {
    match outcome
    case Refused(error) => (w, [], Refusal(error))
    case Fine(call, result, _, io) =>
      var write := WriteIn(outcome);
      if !WellShaped(write) then (w, [], Refusal("validation"))
      else if !IsWrite(call) then
        ObjectToolsWrite(call.tool, call.verb, call.payload.objectType, call.registered, call.listed);
        (ReadTool(w, write, io), [], ReadDone(result))
      else
        var usePattern := pattern && loopStep.None? && PatternEligible(write, w.policy);
        var p := Staged(write, w.policy, usePattern, loopStep, w.now);
        var w1 := w.(store := Put(w.store, p));
        if p.tier == Some(AUTO) && loopStep.None? then
          var (w', events, result) := Execute(w1, w.store.nextId, None, io);
          (w', events, if result.Success? then AppliedNow(w.store.nextId) else Refusal("auto-apply failed"))
        else (w1, [], Previewed(w.store.nextId))
  }

  /** Invoking what was taken for a read: an object tool would do what it does, any other changes nothing. */
  function ReadTool(w: World, write: Write, io: ExecIo): World {
    if KindOf(write.tool).OtherTool? then w else w.(portal := Invoke(w.objectTypes, w.portal, write, io).portal)
  }

  // ----- Undo -----

  /** A missing reply is a call that raised. */
  function PaddedReplies(replies: seq<Undo.DeleteReply>, n: nat): (r: seq<Undo.DeleteReply>)
    ensures |r| == n
  {
    seq(n, i requires 0 <= i < n => if i < |replies| then replies[i] else Undo.Raised)
  }

  predicate ValidType(w: World, target: Option<string>) { target.Some? && target.value in w.objectTypes }

  /** `_handle_undo`: replay the snapshot; only a full success consumes it. */
  function UndoAction(w: World, id: ActionId, acked: set<RecordId>, raised: bool, replies: seq<Undo.DeleteReply>): (World, seq<Event>) {
    if id !in w.snapshots || !w.snapshots[id].undoable then (w, [])
    else
      var snap := w.snapshots[id];
      var finished := w.(snapshots := w.snapshots - {id}, audit := w.audit + [UndoneAction(id)]);
      match snap.intent
      case Update =>
        if snap.originals == map[] then (w, [])
        else
          var needed := Undo.Needed(w.schema, snap.originals);
          var done := acked * needed * w.portal.Keys;
          var portal := Undo.Restore(w.portal, w.schema, snap.originals, done);
          if !raised && done == needed then (finished.(portal := portal), [UndoTried(id, done, false)])
          else (w.(portal := portal), [UndoTried(id, done, false)])
      case Create =>
        // A delete of something that is no object type raises before any call.
        if snap.createdIds == [] || !ValidType(w, snap.target) then (w, [])
        else
          var rs := PaddedReplies(replies, |snap.createdIds|);
          var gone := Undo.DeletedIds(snap.createdIds, rs);
          var portal := w.portal - gone;
          if Undo.CreateSucceeds(snap.createdIds, rs) then (finished.(portal := portal), [UndoTried(id, gone, true)])
          else (w.(portal := portal), [UndoTried(id, gone, true)])
      case _ => (w, [])
  }

  // ----- The loop -----

  const STALE_AGE: int := 2 * 60 * MINUTE

  /** Only a loop that waits for nobody goes stale. */
  predicate Stale(s: LoopView, now: Instant) {
    !s.status.AwaitingApproval? && !s.status.AwaitingVerification? && Micros(s.updatedAt) < Micros(now) - STALE_AGE
  }

  /** One pass of the loop body. The step's tool is called through `handle_tool`, as often as its retry
      wrapper needs; the attempt that settles it is the one that counts. */
  function StepOn(s: LoopView, w: World, tries: Tries): (LoopView, World, seq<Event>, bool)
    requires s.current < |s.plan.steps|
  {
    match Prepare(s)
    case Blocked(s') => (s', w, [], false)
    case Ready(c, step) =>
      var (w', events, reply) := CallOn(w, step, tries);
      var (c', go) := Absorb(c, step, reply);
      (c', w', events, go)
  }

  /** `_run_loop_tool_step` inside its retry wrapper. */
  function CallOn(w: World, step: PlanStep, tries: Tries): (World, seq<Event>, ToolReply) {
    match Client.Settled(tries)
    case Raised(error, _, _) => (w, [], Refusal(error))
    case Success(outcome) => HandleTool(w, outcome, false, Some(step.number))
  }

  /** `_drive_loop`, from the current step on: it ends as the staging loop does, and has changed nothing
      but the pending store. */
  function DriveOn(s: LoopView, w: World, tape: seq<Tries>): (r: (LoopView, World, seq<Event>))
    requires s.current + |tape| >= |s.plan.steps|
    ensures var (s', st') := Drive(s, w.store, w.policy, w.now, tape);
            r == (s', w.(store := st'), [])
    decreases |s.plan.steps| - s.current
  {
    if s.current >= |s.plan.steps| then (s.(status := Completed, updatedAt := w.now), w, [])
    else
      StepStages(s, w, tape[0]);
      var (s1, w1, events, go) := StepOn(s, w, tape[0]);
      if !go then (s1.(updatedAt := w1.now), w1, events)
      else
        var (s2, w2, more) := DriveOn(s1, w1, tape[1..]);
        assert events + more == [];
        (s2, w2, events + more)
  }

  /** A loop step only stages: the AUTO branch of `handle_tool` is closed to it. */
  lemma StepStages(s: LoopView, w: World, tries: Tries)
    requires s.current < |s.plan.steps|
    ensures var (s', w', events, go) := StepOn(s, w, tries);
            var r := DriveStep(s, w.store, w.policy, w.now, tries);
            && s' == r.loop && w' == w.(store := r.store) && events == [] && (go <==> r.Go?)
  {
  }

  /** Driving the portal's own loop; a completed loop's state is cleared. */
  function DriveWorld(w: World, s: LoopView, tape: seq<Tries>): (World, seq<Event>) {
    var (s', w', events) := DriveOn(s, w, Padded(tape, |s.plan.steps|));
    (w'.(loop := if s'.status.Completed? then None else Some(s')), events)
  }

  function CreatedIds(w: World, s: LoopView): seq<RecordId> {
    if s.pendingId.Some? && s.pendingId.value in w.snapshots then w.snapshots[s.pendingId.value].createdIds else []
  }

  /** `run_loop`, with or without a plan. */
  function RunLoopCommand(w: World, plan: Option<Plan>, tape: seq<Tries>): (World, seq<Event>) {
    var existing := if w.loop.Some? && (Terminal(w.loop.value.status) || Stale(w.loop.value, w.now)) then None else w.loop;
    match existing
    case Some(s) =>
      if s.status.AwaitingApproval? then
        if s.current < |s.plan.steps| then (w.(loop := Some(Resume(s, w.store, w.audit, CreatedIds(w, s), w.now))), [])
        else (w, [])
      else if s.status.AwaitingVerification? then (w, [])
      else DriveWorld(w, s, tape)
    case None =>
      if plan.Some? && PlanValid(plan.value) && Concrete(plan.value)
      then DriveWorld(w, Fresh(plan.value, false, w.now), tape)
      else (w.(loop := None), [])
  }

  function VerifyCommand(w: World, v: Verdict, tape: seq<Tries>): (World, seq<Event>) {
    if w.loop.None? || !w.loop.value.status.AwaitingVerification? || w.loop.value.current >= |w.loop.value.plan.steps|
    then (w, [])
    else
      var s := Verify(w.loop.value, v, w.now);
      if s.status.Running? then DriveWorld(w, s, tape) else (w.(loop := Some(s)), [])
  }

  // ----- The sweep -----

  /** `_run_one_schedule` inside the sweep's `try`. */
  ghost function RunOneOn(w: World, s: Sweep.Schedule, tape: seq<Tries>): (r: (Sweep.Schedule, World, seq<Event>, Sweep.Outcome))
    ensures var (s', st', outcome) := Sweep.RunOne(s, w.store, w.policy, w.now, tape);
            r == (s', w.(store := st'), [], outcome)
  {
    var gate := Sweep.PassGate(s, w.store, w.policy.scheduleQueueTtlDays, w.now);
    if gate.None? then (s, w, [], Sweep.Skipped)
    else
      var (s1, st1) := gate.value;
      var w1 := w.(store := st1);
      match Compile(s.cron)
      case Err(_) => (s1.(lastBatch := Some(Sweep.Batch(Some(w.now), Sweep.BatchFailed, []))), w1, [], Sweep.RunFailed)
      case Ok(c) =>
        if !Due(c, s.lastRunAt, w.now) then (s1, w1, [], Sweep.NotDue)
        else
          var (s2, w2, events) := RunDueOn(w1, s1, tape);
          (s2, w2, events, Sweep.Ran)
  }

  /** The unattended run of a due schedule. */
  function RunDueOn(w: World, s: Sweep.Schedule, tape: seq<Tries>): (Sweep.Schedule, World, seq<Event>) {
    var (loop, w1, events) := DriveOn(Fresh(s.plan, true, w.now), w, Padded(tape, |s.plan.steps|));
    var (s', st') := Sweep.Recorded(s, loop, w1.store, w.now);
    (s', w1.(store := st'), events)
  }

  // The sweep as it is safe to think of it: each turn only stages and stamps.

  /** The world after the `i`th schedule's turn, and what that turn reports. */
  ghost function AfterTurn(w: World, i: nat, tape: seq<Tries>): (World, Event)
    requires i < |w.schedules|
  {
    var (s', st', outcome) := Sweep.RunOne(w.schedules[i], w.store, w.policy, w.now, tape);
    (w.(schedules := w.schedules[i := s'], store := st'), Swept(w.schedules[i].id, outcome, w.now))
  }

  function TapeAt(tapes: seq<seq<Tries>>, i: nat): seq<Tries> {
    if i < |tapes| then tapes[i] else []
  }

  ghost function SweepStores(w: World, i: nat, tapes: seq<seq<Tries>>): (World, seq<Event>)
    requires i <= |w.schedules|
    decreases |w.schedules| - i
  {
    if i == |w.schedules| then (w, [])
    else
      var (w1, e) := AfterTurn(w, i, TapeAt(tapes, i));
      var (w2, more) := SweepStores(w1, i + 1, tapes);
      (w2, [e] + more)
  }

  /** The schedules from the `i`th on, each in its turn: nothing changes but schedules and previews. */
  ghost function SweepFrom(w: World, i: nat, tapes: seq<seq<Tries>>): (r: (World, seq<Event>))
    requires i <= |w.schedules|
    ensures r == SweepStores(w, i, tapes)
    decreases |w.schedules| - i
  {
    if i == |w.schedules| then (w, [])
    else
      var (s', w1, events, outcome) := RunOneOn(w, w.schedules[i], TapeAt(tapes, i));
      var (w2, more) := SweepFrom(w1.(schedules := w1.schedules[i := s']), i + 1, tapes);
      assert events + [Swept(w.schedules[i].id, outcome, w.now)] + more == [Swept(w.schedules[i].id, outcome, w.now)] + more;
      (w2, events + [Swept(w.schedules[i].id, outcome, w.now)] + more)
  }

  function Reap(st: Store, now: Instant): Store {
    st.(entries := map id | id in st.entries && !Reapable(st.entries[id], now) :: st.entries[id])
  }

  predicate Later(a: Instant, b: Instant) { Micros(a) <= Micros(b) }

  // ----- Commands -----

  datatype Command =
    | Tool(call: ToolOutcome, pattern: bool)
    | Approve(id: ActionId, count: Option<int>, io: ExecIo)
    | ConfirmNewest(id: ActionId, number: int, io: ExecIo)
    | Reject(id: ActionId)
    | UndoIt(id: ActionId, acked: set<RecordId>, raised: bool, replies: seq<Undo.DeleteReply>)
    | LoopRun(plan: Option<Plan>, tape: seq<Tries>)
    | LoopVerdict(verdict: Verdict, tape: seq<Tries>)
    | LoopAbandon
    | ReapPending
    | SweepDue(tapes: seq<seq<Tries>>)
    | AddSchedule(sid: ScheduleId, cron: seq<Field>, schedulePlan: Plan)
    | RemoveSchedule(sid: ScheduleId)
    | SetPolicy(policy: ApprovalPolicy)
    | Tick(to: Instant)
    | Outside(written: Portal, gone: set<RecordId>)        // another writer changes the portal

  /** A schedule id as fresh as a new uuid4: neither registered nor named by any preview. */
  predicate FreshSchedule(w: World, sid: ScheduleId) {
    && (forall s <- w.schedules :: s.id != sid)
    && forall id <- w.store.entries :: w.store.entries[id].origin != Some(sid)
  }

  function Remaining(schedules: seq<Sweep.Schedule>, sid: ScheduleId): seq<Sweep.Schedule> {
    if schedules == [] then []
    else (if schedules[0].id != sid then [schedules[0]] else []) + Remaining(schedules[1..], sid)
  }

  ghost function Apply(w: World, cmd: Command): (World, seq<Event>) {
    match cmd
    case Tool(call, pattern) => var (w', events, _) := HandleTool(w, call, pattern, None); (w', events)
    case Approve(id, count, io) => var (w', events, _) := Execute(w, id, count, io); (w', events)
    case ConfirmNewest(id, number, io) => var (w', events, _) := Confirm(w, id, number, io); (w', events)
    case Reject(id) => (w.(store := Drop(w.store, id)), [])
    case UndoIt(id, acked, raised, replies) => UndoAction(w, id, acked, raised, replies)
    case LoopRun(plan, tape) => RunLoopCommand(w, plan, tape)
    case LoopVerdict(v, tape) => VerifyCommand(w, v, tape)
    case LoopAbandon => (w.(loop := None), [])
    case ReapPending => (w.(store := Reap(w.store, w.now)), [])
    case SweepDue(tapes) => SweepFrom(w, 0, tapes)
    case AddSchedule(sid, cron, plan) =>
      if FreshSchedule(w, sid) && Compile(cron).Ok? && Concrete(plan) then
        (w.(schedules := [Sweep.Schedule(sid, cron, plan, Some(w.now), None)] + w.schedules), [])
      else (w, [])
    case RemoveSchedule(sid) => (w.(schedules := Remaining(w.schedules, sid)), [])
    case SetPolicy(policy) => (w.(policy := policy), [])
    case Tick(to) => (if Later(w.now, to) then w.(now := to) else w, [])
    case Outside(written, gone) => (w.(portal := (w.portal + written) - gone), [Foreign(written.Keys, gone)])
  }

  /** An installation that has not been used yet. */
  ghost predicate Initial(w: World) {
    && w.store == Store(map[], 0) && w.snapshots == map[] && w.audit == []
    && w.loop.None? && w.schedules == []
  }

  /** The world and everything reported after a sequence of commands. */
  ghost function RunAll(w: World, cmds: seq<Command>): (World, seq<Event>)
    decreases |cmds|
  {
    if cmds == [] then (w, [])
    else
      var (w1, events1) := RunAll(w, cmds[..|cmds| - 1]);
      var (w2, events2) := Apply(w1, cmds[|cmds| - 1]);
      (w2, events1 + events2)
  }
}
