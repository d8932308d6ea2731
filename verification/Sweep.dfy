/** The scheduled sweep (src/hubspot_agent/orchestrator.py, `_run_one_schedule`;
    src/hubspot_agent/schedule_store.py): one schedule's gates, its unattended run, its batch. */
module Sweep {
  import opened Wrappers
  import opened Tools
  import opened Policy
  import opened Cron
  import opened Gate
  import opened Loop
  import opened LoopProofs

  datatype BatchStatus = BatchRunning | BatchPending | BatchDone | BatchExpired | BatchFailed

  datatype Batch = Batch(runAt: Option<Instant>, status: BatchStatus, ids: seq<ActionId>)

  datatype Schedule = Schedule(id: ScheduleId, cron: seq<Field>, plan: Plan,
                               lastRunAt: Option<Instant>, lastBatch: Option<Batch>)

  datatype Outcome = Skipped | NotDue | Ran | RunFailed

  /** The status strings under which a batch may still be waiting for review. */
  predicate Live(b: Batch) { b.status.BatchRunning? || b.status.BatchPending? }

  /** The queued previews that nobody has approved or rejected yet, from the pending store itself. */
  function StillPending(s: Schedule, st: Store): set<ActionId> {
    if s.lastBatch.None? || !Live(s.lastBatch.value) then {}
    else set id | id in s.lastBatch.value.ids && id in st.entries
  }

  predicate TtlExpired(b: Batch, ttlDays: nat, now: Instant) {
    b.runAt.Some? ==> Micros(now) - Micros(b.runAt.value) >= ttlDays * DAY * MINUTE
  }

  /** Provenance: every staged preview that is still there is stored again with its origin. */
  function Stamped(st: Store, staged: seq<ActionId>, sid: ScheduleId, now: Instant): Store {
    st.(entries := map id | id in st.entries ::
      if id in staged then st.entries[id].(origin := Some(sid), storedAt := now) else st.entries[id])
  }

  function Cleared(st: Store, ids: set<ActionId>): Store {
    st.(entries := st.entries - ids)
  }

  /** After the overlap and expiry gate: `None` when the schedule is skipped. */
  function PassGate(s: Schedule, st: Store, ttlDays: nat, now: Instant): Option<(Schedule, Store)> {
    var still := StillPending(s, st);
    if still == {} then Some((s, st))
    else if !TtlExpired(s.lastBatch.value, ttlDays, now) then None
    else Some((s.(lastBatch := Some(s.lastBatch.value.(status := BatchExpired))), Cleared(st, still)))
  }

  /** What is recorded after an unattended run: the stamps, the batch and the clock. */
  function Recorded(s: Schedule, loop: LoopView, st: Store, now: Instant): (Schedule, Store) {
    var batch := Batch(Some(now), if loop.staged != [] then BatchPending else BatchDone, loop.staged);
    (s.(lastBatch := Some(batch), lastRunAt := Some(now)), Stamped(st, loop.staged, s.id, now))
  }

  // A schedule's turn as it is safe to think of it: the run only stages. `Engine.RunOneOn` sends the
  // run's steps through `handle_tool` and is proved to come to this.

  /** The unattended run of a due schedule. */
  function RunDue(s: Schedule, st: Store, policy: ApprovalPolicy, now: Instant, tape: seq<Tries>): (Schedule, Store) {
    var (loop, st') := Drive(Fresh(s.plan, true, now), st, policy, now, Padded(tape, |s.plan.steps|));
    Recorded(s, loop, st', now)
  }

  /** `_run_one_schedule` inside the sweep's `try`: an expression that does not compile is the raise. */
  ghost function RunOne(s: Schedule, st: Store, policy: ApprovalPolicy, now: Instant, tape: seq<Tries>): (Schedule, Store, Outcome) {
    var gate := PassGate(s, st, policy.scheduleQueueTtlDays, now);
    if gate.None? then (s, st, Skipped)
    else
      var (s1, st1) := gate.value;
      match Compile(s.cron)
      case Err(_) => (s1.(lastBatch := Some(Batch(Some(now), BatchFailed, []))), st1, RunFailed)
      case Ok(c) =>
        if !Due(c, s.lastRunAt, now) then (s1, st1, NotDue)
        else
          var (s2, st2) := RunDue(s1, st1, policy, now, tape);
          (s2, st2, Ran)
  }

  // ----- One reviewable batch per schedule -----

  /** The stamped previews of a schedule are exactly queued in its live batch, and a batch's ids
      name nobody else's previews. */
  ghost predicate OneBatch(s: Schedule, st: Store) {
    && (forall id <- st.entries :: st.entries[id].origin == Some(s.id) ==>
          s.lastBatch.Some? && Live(s.lastBatch.value) && id in s.lastBatch.value.ids)
    && (s.lastBatch.Some? ==> forall id <- s.lastBatch.value.ids ::
          id < st.nextId && (id in st.entries ==> st.entries[id].origin == Some(s.id)))
  }

  ghost predicate IdsBelow(st: Store) {
    forall id <- st.entries :: id < st.nextId
  }

  /** No preview stamped with this schedule is waiting. */
  ghost predicate NoneWaiting(s: Schedule, st: Store) {
    forall id <- st.entries :: st.entries[id].origin != Some(s.id)
  }

  lemma GateClears(s: Schedule, st: Store, ttlDays: nat, now: Instant)
    requires OneBatch(s, st) && IdsBelow(st) && PassGate(s, st, ttlDays, now).Some?
    ensures var (s1, st1) := PassGate(s, st, ttlDays, now).value;
            && NoneWaiting(s, st1) && OneBatch(s1, st1) && IdsBelow(st1)
            && s1.(lastBatch := s.lastBatch) == s
            && st1.nextId == st.nextId && st1.entries.Keys <= st.entries.Keys
            && (forall id <- st1.entries :: st1.entries[id] == st.entries[id])
            && (forall id <- st.entries :: id !in st1.entries ==> st.entries[id].origin == Some(s.id))
  {
    var still := StillPending(s, st);
    forall id <- st.entries | st.entries[id].origin == Some(s.id)
      ensures id in still
    {
    }
  }

  /** What an unattended run does to the pending store: it adds its own stamped previews, and leaves
      everything that was there alone. */
  lemma RunStages(s: Schedule, st: Store, policy: ApprovalPolicy, now: Instant, tape: seq<Tries>)
    requires IdsBelow(st) && NoneWaiting(s, st)
    ensures var (s', st') := RunDue(s, st, policy, now, tape);
            && OneBatch(s', st') && IdsBelow(st') && st'.nextId >= st.nextId
            && (forall id <- st.entries :: id in st'.entries && st'.entries[id] == st.entries[id])
            && (forall id <- st'.entries :: id !in st.entries ==>
                  st.nextId <= id && st'.entries[id].origin == Some(s.id) && id in s'.lastBatch.value.ids)
  {
    var fresh' := Fresh(s.plan, true, now);
    var t := Padded(tape, |s.plan.steps|);
    DriveScheduled(fresh', st, st, policy, now, t);
    var (loop, st') := Drive(fresh', st, policy, now, t);
    var stamped := Stamped(st', loop.staged, s.id, now);
    forall id <- loop.staged
      ensures id in stamped.entries && stamped.entries[id].origin == Some(s.id) && id < stamped.nextId
    {
    }
  }

  /** A sweep of one schedule keeps its batch exact; a run starts only when nothing of the previous
      batch waits any more, and afterwards exactly its own staged previews do. */
  lemma RunOneKeepsBatch(s: Schedule, st: Store, policy: ApprovalPolicy, now: Instant, tape: seq<Tries>)
    requires OneBatch(s, st) && IdsBelow(st)
    ensures var (s', st', outcome) := RunOne(s, st, policy, now, tape);
            && OneBatch(s', st') && IdsBelow(st') && st'.nextId >= st.nextId && s'.id == s.id
            && (outcome == Skipped ==> (s', st') == (s, st) && StillPending(s, st) != {})
            && (StillPending(s, st) != {} && outcome != Skipped ==>
                  TtlExpired(s.lastBatch.value, policy.scheduleQueueTtlDays, now))
            && (outcome == Ran ==> forall id <- st'.entries :: st'.entries[id].origin == Some(s.id) ==> id >= st.nextId)
            && (outcome != Ran && outcome != Skipped ==> NoneWaiting(s, st'))
  {
    var gate := PassGate(s, st, policy.scheduleQueueTtlDays, now);
    if gate.Some? {
      GateClears(s, st, policy.scheduleQueueTtlDays, now);
      var (s1, st1) := gate.value;
      RunStages(s1, st1, policy, now, tape);
    }
  }

  /** What a sweep of one schedule does to every other preview: nothing. */
  lemma RunOneFrame(s: Schedule, st: Store, policy: ApprovalPolicy, now: Instant, tape: seq<Tries>)
    requires OneBatch(s, st) && IdsBelow(st)
    ensures var (_, st', _) := RunOne(s, st, policy, now, tape);
            && (forall id <- st.entries :: id in st'.entries ==> st'.entries[id] == st.entries[id])
            && (forall id <- st.entries :: id !in st'.entries ==> st.entries[id].origin == Some(s.id))
            && (forall id <- st'.entries :: id !in st.entries ==> id >= st.nextId && st'.entries[id].origin == Some(s.id))
  {
    var gate := PassGate(s, st, policy.scheduleQueueTtlDays, now);
    if gate.Some? {
      GateClears(s, st, policy.scheduleQueueTtlDays, now);
      var (s1, st1) := gate.value;
      RunStages(s1, st1, policy, now, tape);
    }
  }

  // ----- A turn, exactly -----

  /** The batch is old enough to be given up: its days, in microseconds, have passed, or it has no date. */
  ghost predicate Overdue(b: Batch, ttlDays: nat, now: Instant) {
    b.runAt.Some? ==> Micros(now) - Micros(b.runAt.value) >= ttlDays * 86_400_000_000
  }

  lemma OverdueIs(b: Batch, ttlDays: nat, now: Instant)
    ensures TtlExpired(b, ttlDays, now) <==> Overdue(b, ttlDays, now)
  {
    assert DAY * MINUTE == 86_400_000_000;
    assert ttlDays * DAY * MINUTE == ttlDays * (DAY * MINUTE);
  }

  /** Some queued preview of a running or pending batch is still there. */
  ghost predicate Waits(s: Schedule, st: Store) {
    s.lastBatch.Some? && s.lastBatch.value.status in {BatchRunning, BatchPending}
    && exists id <- s.lastBatch.value.ids :: id in st.entries
  }

  /** A turn is skipped exactly while previews wait that are not overdue, and then nothing changes; else it
      fails exactly if the expression is not accepted, and runs exactly if it is due. What waited is dropped and
      its batch marked expired. A failure and a run replace the batch; only a run moves the clock, and every
      preview of its batch is then stamped. */
  lemma TurnExactly(s: Schedule, st: Store, policy: ApprovalPolicy, now: Instant, tape: seq<Tries>)
    requires OneBatch(s, st) && IdsBelow(st)
    ensures var (s', st', outcome) := RunOne(s, st, policy, now, tape);
            && (outcome == Skipped <==> Waits(s, st) && !Overdue(s.lastBatch.value, policy.scheduleQueueTtlDays, now))
            && (outcome == Skipped ==> s' == s && st' == st)
            && (outcome == RunFailed <==> outcome != Skipped && Compile(s.cron).Err?)
            && (outcome == RunFailed ==> s' == s.(lastBatch := Some(Batch(Some(now), BatchFailed, []))))
            && (outcome == Ran <==> outcome != Skipped && Compile(s.cron).Ok? && Due(Compile(s.cron).value, s.lastRunAt, now))
            && (outcome == Ran ==> s' == s.(lastRunAt := Some(now), lastBatch := s'.lastBatch) && NewBatch(s', st', now))
            && (outcome == NotDue ==>
                  s' == if Waits(s, st) then s.(lastBatch := Some(s.lastBatch.value.(status := BatchExpired))) else s)
            && (outcome in {NotDue, RunFailed} ==> forall id ::
                  id in st'.entries <==> id in st.entries && st.entries[id].origin != Some(s.id))
            && (outcome != Skipped ==> forall id <- st.entries :: st.entries[id].origin == Some(s.id) ==> id !in st'.entries)
  {
    if s.lastBatch.Some? { OverdueIs(s.lastBatch.value, policy.scheduleQueueTtlDays, now); }
    assert Waits(s, st) <==> StillPending(s, st) != {} by {
      if Waits(s, st) {
        var id :| id in s.lastBatch.value.ids && id in st.entries;
        assert id in StillPending(s, st);
      }
    }
    RunOneKeepsBatch(s, st, policy, now, tape);
    var gate := PassGate(s, st, policy.scheduleQueueTtlDays, now);
    if gate.Some? {
      GateClears(s, st, policy.scheduleQueueTtlDays, now);
      var (s1, st1) := gate.value;
      RunStages(s1, st1, policy, now, tape);
      BatchIsNew(s1, st1, policy, now, tape);
    }
  }

  /** The batch of a run that ended now: its previews are all there, stamped and dated, and it is pending
      exactly if there are any. */
  ghost predicate NewBatch(s: Schedule, st: Store, now: Instant) {
    && s.lastBatch.Some? && s.lastBatch.value.runAt == Some(now)
    && s.lastBatch.value.status == (if s.lastBatch.value.ids != [] then BatchPending else BatchDone)
    && forall id <- s.lastBatch.value.ids ::
         id in st.entries && st.entries[id].origin == Some(s.id) && st.entries[id].storedAt == now
  }

  lemma BatchIsNew(s: Schedule, st: Store, policy: ApprovalPolicy, now: Instant, tape: seq<Tries>)
    requires IdsBelow(st)
    ensures var (s', st') := RunDue(s, st, policy, now, tape);
            NewBatch(s', st', now) && s' == s.(lastRunAt := Some(now), lastBatch := s'.lastBatch)
  {
    DriveScheduled(Fresh(s.plan, true, now), st, st, policy, now, Padded(tape, |s.plan.steps|));
  }
}
