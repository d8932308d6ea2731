/** Scheduled work over whole runs: one reviewable batch per schedule, and no tick lost. */
module SweepRuns {
  import opened Wrappers
  import opened Tools
  import opened Policy
  import opened Cron
  import opened Gate
  import opened Effects
  import opened Loop
  import opened LoopProofs
  import opened Engine
  import opened Sweep
  import opened WriteSafety

  // ----- One reviewable batch per schedule -----

  ghost predicate DistinctSchedules(schedules: seq<Schedule>) {
    forall i, j :: 0 <= i < j < |schedules| ==> schedules[i].id != schedules[j].id
  }

  ghost predicate BatchesSound(w: World) {
    && IdsBelow(w.store) && DistinctSchedules(w.schedules)
    && forall i :: 0 <= i < |w.schedules| ==> OneBatch(w.schedules[i], w.store)
  }

  /** Outside the sweep, records keep their origin and new ones have none. */
  ghost predicate OriginsKept(st: Store, st': Store) {
    && st.nextId <= st'.nextId && IdsBelow(st')
    && forall id <- st'.entries ::
         if id in st.entries then st'.entries[id].origin == st.entries[id].origin
         else st.nextId <= id && st'.entries[id].origin.None?
  }

  lemma OriginsKeepBatches(w: World, w': World)
    requires BatchesSound(w) && OriginsKept(w.store, w'.store) && w'.schedules == w.schedules
    ensures BatchesSound(w')
  {
    forall i | 0 <= i < |w.schedules|
      ensures OneBatch(w.schedules[i], w'.store)
    {
      assert OneBatch(w.schedules[i], w.store);
    }
  }

  lemma {:induction false} DriveKeepsOrigins(s: LoopView, st: Store, policy: ApprovalPolicy, now: Instant, tape: seq<Tries>)
    requires s.current + |tape| >= |s.plan.steps| && IdsBelow(st)
    ensures OriginsKept(st, Drive(s, st, policy, now, tape).1)
    ensures forall id <- st.entries :: id in Drive(s, st, policy, now, tape).1.entries
    decreases |s.plan.steps| - s.current
  {
    if s.current < |s.plan.steps| {
      var r := DriveStep(s, st, policy, now, tape[0]);
      assert OriginsKept(st, r.store);
      if r.Go? { DriveKeepsOrigins(r.loop, r.store, policy, now, tape[1..]); }
    }
  }

  /** A schedule's turn leaves the other schedules' batches as they were. */
  lemma OtherBatchKept(o: Schedule, s: Schedule, st: Store, policy: ApprovalPolicy, now: Instant, tape: seq<Tries>)
    requires OneBatch(s, st) && OneBatch(o, st) && IdsBelow(st) && o.id != s.id
    ensures OneBatch(o, RunOne(s, st, policy, now, tape).1)
  {
    RunOneFrame(s, st, policy, now, tape);
    RunOneKeepsBatch(s, st, policy, now, tape);
  }

  lemma TurnKeepsBatches(w: World, i: nat, tape: seq<Tries>)
    requires BatchesSound(w) && i < |w.schedules|
    ensures var (s', st', _) := RunOne(w.schedules[i], w.store, w.policy, w.now, tape);
            BatchesSound(w.(schedules := w.schedules[i := s'], store := st')) && s'.id == w.schedules[i].id
  {
    var s := w.schedules[i];
    var (s', st', _) := RunOne(s, w.store, w.policy, w.now, tape);
    RunOneKeepsBatch(s, w.store, w.policy, w.now, tape);
    forall j | 0 <= j < |w.schedules| && j != i
      ensures OneBatch(w.schedules[j], st')
    {
      OtherBatchKept(w.schedules[j], s, w.store, w.policy, w.now, tape);
    }
  }

  lemma {:induction false} SweepKeepsBatches(w: World, i: nat, tapes: seq<seq<Tries>>)
    requires BatchesSound(w) && i <= |w.schedules|
    ensures BatchesSound(SweepStores(w, i, tapes).0)
    decreases |w.schedules| - i
  {
    if i < |w.schedules| {
      TurnKeepsBatches(w, i, TapeAt(tapes, i));
      var (s', st', _) := RunOne(w.schedules[i], w.store, w.policy, w.now, TapeAt(tapes, i));
      SweepKeepsBatches(w.(schedules := w.schedules[i := s'], store := st'), i + 1, tapes);
    }
  }

  lemma {:induction false} RemainingSound(schedules: seq<Schedule>, sid: ScheduleId)
    requires DistinctSchedules(schedules)
    ensures DistinctSchedules(Remaining(schedules, sid))
    ensures forall s <- Remaining(schedules, sid) :: s in schedules && s.id != sid
    ensures forall s <- schedules :: s.id != sid ==> s in Remaining(schedules, sid)
  {
    if schedules != [] {
      RemainingSound(schedules[1..], sid);
    }
  }

  /** Every record is still there as it was, as to its origin, and new ones have none. */
  ghost predicate OnlyGrows(w: World, w': World) {
    && OriginsKept(w.store, w'.store) && w'.schedules == w.schedules
    && forall id <- w.store.entries :: id in w'.store.entries
  }

  lemma DriveWorldGrows(w: World, s: LoopView, tape: seq<Tries>)
    requires BatchesSound(w)
    ensures OnlyGrows(w, DriveWorld(w, s, tape).0)
  {
    DriveKeepsOrigins(s, w.store, w.policy, w.now, Padded(tape, |s.plan.steps|));
  }

  lemma LoopRunGrows(w: World, plan: Option<Plan>, tape: seq<Tries>)
    requires BatchesSound(w)
    ensures OnlyGrows(w, RunLoopCommand(w, plan, tape).0)
  {
    if w.loop.Some? && !Terminal(w.loop.value.status) && !Stale(w.loop.value, w.now) {
      DriveWorldGrows(w, w.loop.value, tape);
    } else if plan.Some? {
      DriveWorldGrows(w, Fresh(plan.value, false, w.now), tape);
    }
  }

  lemma VerdictGrows(w: World, v: Verdict, tape: seq<Tries>)
    requires BatchesSound(w)
    ensures OnlyGrows(w, VerifyCommand(w, v, tape).0)
  {
    if w.loop.Some? && w.loop.value.current < |w.loop.value.plan.steps| {
      DriveWorldGrows(w, Verify(w.loop.value, v, w.now), tape);
    }
  }

  /** The loop's commands keep every record, and stage without origin. */
  lemma LoopCommandOrigins(w: World, cmd: Command)
    requires BatchesSound(w) && (cmd.LoopRun? || cmd.LoopVerdict?)
    ensures OnlyGrows(w, Apply(w, cmd).0)
  {
    match cmd
    case LoopRun(plan, tape) => LoopRunGrows(w, plan, tape);
    case LoopVerdict(v, tape) => VerdictGrows(w, v, tape);
  }

  lemma PerformOrigins(w: World, id: ActionId, p: Pending, io: ExecIo)
    requires IdsBelow(w.store)
    ensures var w' := Perform(w, id, p, io).0;
            && (w'.store == w.store || w'.store == Drop(w.store, id))
            && w'.schedules == w.schedules
  {
  }

  lemma ExecuteOrigins(w: World, id: ActionId, count: Option<int>, io: ExecIo)
    requires IdsBelow(w.store)
    ensures var w' := Execute(w, id, count, io).0;
            OriginsKept(w.store, w'.store) && w'.schedules == w.schedules
  {
    if id in w.store.entries {
      var p := w.store.entries[id];
      PerformOrigins(w, id, p, io);
      if count.Some? {
        PerformOrigins(w.(store := Confirmed(w.store, id, count.value)), id, p, io);
      }
    }
  }

  lemma PutOrigins(st: Store, p: Pending)
    requires IdsBelow(st) && p.origin.None?
    ensures OriginsKept(st, Put(st, p))
  {
  }

  lemma OriginsKeptOn(st: Store, st1: Store, st2: Store)
    requires OriginsKept(st, st1) && OriginsKept(st1, st2)
    requires forall id <- st2.entries :: id in st.entries ==> id in st1.entries
    ensures OriginsKept(st, st2)
  {
  }

  lemma ToolOrigins(w: World, call: ToolOutcome, pattern: bool)
    requires IdsBelow(w.store)
    ensures var w' := HandleTool(w, call, pattern, None).0;
            OriginsKept(w.store, w'.store) && w'.schedules == w.schedules
  {
    if call.Fine? && WellShaped(WriteIn(call)) && IsWrite(call.call) {
      var p := Staged(WriteIn(call), w.policy, pattern && PatternEligible(WriteIn(call), w.policy), None, w.now);
      var w1 := w.(store := Put(w.store, p));
      PutOrigins(w.store, p);
      if p.tier == Some(AUTO) {
        ExecuteOrigins(w1, w.store.nextId, None, call.io);
        OriginsKeptOn(w.store, w1.store, Execute(w1, w.store.nextId, None, call.io).0.store);
      }
    }
  }

  lemma ConfirmOrigins(w: World, id: ActionId, count: int, io: ExecIo)
    requires IdsBelow(w.store)
    ensures var w' := Confirm(w, id, count, io).0;
            OriginsKept(w.store, w'.store) && w'.schedules == w.schedules
  {
    ExecuteOrigins(w, id, None, io);
    if id in w.store.entries { ExecuteOrigins(w.(store := Confirmed(w.store, id, count)), id, None, io); }
  }

  /** Commands other than the sweep and the schedule book-keeping keep every origin. */
  lemma OrdinaryCommand(w: World, cmd: Command)
    requires BatchesSound(w) && !cmd.SweepDue? && !cmd.AddSchedule? && !cmd.RemoveSchedule?
    ensures OriginsKept(w.store, Apply(w, cmd).0.store) && Apply(w, cmd).0.schedules == w.schedules
  {
    match cmd
    case Tool(call, pattern) => ToolOrigins(w, call, pattern);
    case Approve(id, count, io) => ExecuteOrigins(w, id, count, io);
    case ConfirmNewest(id, number, io) => ConfirmOrigins(w, id, number, io);
    case LoopRun(_, _) => LoopCommandOrigins(w, cmd);
    case LoopVerdict(_, _) => LoopCommandOrigins(w, cmd);
    case _ =>
  }

  lemma AddKeepsBatches(w: World, s: Schedule)
    requires BatchesSound(w) && FreshSchedule(w, s.id) && s.lastBatch.None?
    ensures BatchesSound(w.(schedules := [s] + w.schedules))
  {
    var all := [s] + w.schedules;
    forall i | 0 < i < |all|
      ensures OneBatch(all[i], w.store) && all[i].id != s.id
    {
      assert all[i] == w.schedules[i - 1];
    }
  }

  lemma RemoveKeepsBatches(w: World, sid: ScheduleId)
    requires BatchesSound(w)
    ensures BatchesSound(w.(schedules := Remaining(w.schedules, sid)))
  {
    RemainingSound(w.schedules, sid);
    var rest := Remaining(w.schedules, sid);
    forall i | 0 <= i < |rest|
      ensures OneBatch(rest[i], w.store)
    {
      assert rest[i] in w.schedules;
    }
  }

  lemma ApplyKeepsBatches(w: World, cmd: Command)
    requires BatchesSound(w)
    ensures BatchesSound(Apply(w, cmd).0)
  {
    match cmd
    case SweepDue(tapes) => SweepKeepsBatches(w, 0, tapes);
    case AddSchedule(sid, cron, plan) =>
      if FreshSchedule(w, sid) { AddKeepsBatches(w, Sweep.Schedule(sid, cron, plan, Some(w.now), None)); }
    case RemoveSchedule(sid) => RemoveKeepsBatches(w, sid);
    case _ =>
      OrdinaryCommand(w, cmd);
      OriginsKeepBatches(w, Apply(w, cmd).0);
  }

  /** Over every run: each stamped preview of a schedule is queued in its live batch. */
  lemma {:induction false} OneBatchAlways(w: World, cmds: seq<Command>)
    requires Initial(w)
    ensures BatchesSound(RunAll(w, cmds).0)
    decreases |cmds|
  {
    if cmds != [] {
      var n := |cmds| - 1;
      OneBatchAlways(w, cmds[..n]);
      ApplyKeepsBatches(RunAll(w, cmds[..n]).0, cmds[n]);
    }
  }

  // ----- How a stamped preview leaves -----

  /** A schedule whose batch names the preview had outlived its queue time. */
  ghost predicate ExpiredIn(w: World, id: ActionId)
    requires id in w.store.entries
  {
    exists s <- w.schedules ::
      && w.store.entries[id].origin == Some(s.id)
      && s.lastBatch.Some? && id in s.lastBatch.value.ids
      && Overdue(s.lastBatch.value, w.policy.scheduleQueueTtlDays, w.now)
  }

  /** A stamped preview leaves only by being executed, rejected, or expired with its batch by a sweep:
      never by the 24-hour reaper, nor by any loop. */
  lemma StampedLeavesByDecision(w: World, cmd: Command, id: ActionId)
    requires BatchesSound(w) && id in w.store.entries && w.store.entries[id].origin.Some?
    requires id !in Apply(w, cmd).0.store.entries
    ensures || cmd == Reject(id)
            || ((cmd.Approve? || cmd.ConfirmNewest?) && cmd.id == id && HasExecuted(Apply(w, cmd).1, id))
            || (cmd.SweepDue? && ExpiredIn(w, id))
  {
    match cmd
    case Reject(_) =>
    case Approve(a, count, io) => ExecuteRemoves(w, a, count, io);
    case ConfirmNewest(a, number, io) => ConfirmRemoves(w, a, number, io);
    case SweepDue(tapes) => SweepRemoves(w, 0, tapes, id);
    case _ => OthersKeepStamped(w, cmd, id);
  }

  lemma OthersKeepStamped(w: World, cmd: Command, id: ActionId)
    requires BatchesSound(w) && id in w.store.entries && w.store.entries[id].origin.Some?
    requires !cmd.Reject? && !cmd.Approve? && !cmd.ConfirmNewest? && !cmd.SweepDue?
    ensures id in Apply(w, cmd).0.store.entries
  {
    match cmd
    case LoopRun(_, _) => LoopCommandOrigins(w, cmd);
    case LoopVerdict(_, _) => LoopCommandOrigins(w, cmd);
    case Tool(call, pattern) => ToolRemoves(w, call, pattern);
    case _ =>
  }

  lemma ExecuteRemoves(w: World, id: ActionId, count: Option<int>, io: ExecIo)
    ensures var (w', events, _) := Execute(w, id, count, io);
            forall a <- w.store.entries :: a !in w'.store.entries ==> a == id && HasExecuted(events, id)
  {
    if id in w.store.entries {
      var p := w.store.entries[id];
      PerformRemoves(w, id, p, io);
      if count.Some? {
        var w1 := w.(store := Confirmed(w.store, id, count.value));
        PerformRemoves(w1, id, p, io);
        HasExecutedMore([CountSupplied(id, count.value)], Perform(w1, id, p, io).1, id);
      }
    }
  }

  lemma ToolRemoves(w: World, call: ToolOutcome, pattern: bool)
    requires IdsBelow(w.store)
    ensures forall a <- w.store.entries :: a in HandleTool(w, call, pattern, None).0.store.entries
  {
    if call.Fine? {
      var p := Staged(WriteIn(call), w.policy, pattern && PatternEligible(WriteIn(call), w.policy), None, w.now);
      ExecuteRemoves(w.(store := Put(w.store, p)), w.store.nextId, None, call.io);
    }
  }

  lemma ConfirmRemoves(w: World, id: ActionId, count: int, io: ExecIo)
    ensures var (w', events, _) := Confirm(w, id, count, io);
            forall a <- w.store.entries :: a !in w'.store.entries ==> a == id && HasExecuted(events, id)
  {
    if id in w.store.entries && PromptsForCount(w.store.entries[id]) && count == w.store.entries[id].required {
      var w1 := w.(store := Confirmed(w.store, id, count));
      ExecuteRemoves(w1, id, None, io);
      HasExecutedMore([CountSupplied(id, count)], Execute(w1, id, None, io).1, id);
    } else {
      ExecuteRemoves(w, id, None, io);
    }
  }

  lemma PerformRemoves(w: World, id: ActionId, p: Pending, io: ExecIo)
    ensures var (w', events, _) := Perform(w, id, p, io);
            forall a <- w.store.entries :: a !in w'.store.entries ==> a == id && HasExecuted(events, id)
  {
    var (w', events, _) := Perform(w, id, p, io);
    if events != [] { assert events[0] in events && events[0].id == id; }
  }

  lemma {:induction false} SweepRemoves(w: World, i: nat, tapes: seq<seq<Tries>>, id: ActionId)
    requires BatchesSound(w) && i <= |w.schedules|
    requires id in w.store.entries && w.store.entries[id].origin.Some?
    requires id !in SweepStores(w, i, tapes).0.store.entries
    ensures exists s <- w.schedules[i..] ::
              && w.store.entries[id].origin == Some(s.id)
              && s.lastBatch.Some? && id in s.lastBatch.value.ids
              && Overdue(s.lastBatch.value, w.policy.scheduleQueueTtlDays, w.now)
    decreases |w.schedules| - i
  {
    var s, tape := w.schedules[i], TapeAt(tapes, i);
    var (s', st', _) := RunOne(s, w.store, w.policy, w.now, tape);
    var w1 := w.(schedules := w.schedules[i := s'], store := st');
    TurnKeepsBatches(w, i, tape);
    RunOneFrame(s, w.store, w.policy, w.now, tape);
    RunOneKeepsBatch(s, w.store, w.policy, w.now, tape);
    assert s in w.schedules[i..];
    if id in st'.entries {
      SweepRemoves(w1, i + 1, tapes, id);
      assert w1.schedules[i + 1..] == w.schedules[i + 1..];
      assert forall x <- w.schedules[i + 1..] :: x in w.schedules[i..];
    } else {
      assert OneBatch(s, w.store);
      assert id in StillPending(s, w.store);
      OverdueIs(s.lastBatch.value, w.policy.scheduleQueueTtlDays, w.now);
    }
  }

  // ----- Ticks -----

  /** The turns of one schedule in what was reported. */
  function TurnsOf(events: seq<Event>, sid: ScheduleId): seq<(Outcome, Instant)> {
    if events == [] then []
    else
      var n := |events| - 1;
      var e := events[n];
      TurnsOf(events[..n], sid) + if e.Swept? && e.schedule == sid then [(e.outcome, e.at)] else []
  }

  lemma {:induction false} TurnsOfConcat(a: seq<Event>, b: seq<Event>, sid: ScheduleId)
    ensures TurnsOf(a + b, sid) == TurnsOf(a, sid) + TurnsOf(b, sid)
    decreases |b|
  {
    if b == [] {
      assert a + b == a;
    } else {
      var n := |b| - 1;
      assert (a + b)[..|a + b| - 1] == a + b[..n];
      TurnsOfConcat(a, b[..n], sid);
    }
  }

  /** The seed, and then the time of every run. */
  function RunTimes(seed: Instant, turns: seq<(Outcome, Instant)>): (ts: seq<Instant>)
    ensures |ts| >= 1 && ts[0] == seed
  {
    if turns == [] then [seed]
    else
      var n := |turns| - 1;
      RunTimes(seed, turns[..n]) + if turns[n].0 == Ran then [turns[n].1] else []
  }

  function Last<T>(s: seq<T>): T
    requires s != []
  {
    s[|s| - 1]
  }

  /** The clock of a schedule is exact: its last run is the last run time; run times only grow; every
      run's window held a firing (or ran past the scan cap); and after a turn that was not skipped for
      a pending batch, no firing is left behind. */
  ghost predicate Ticking(c: Compiled, seed: Instant, s: Schedule, turns: seq<(Outcome, Instant)>, now: Instant) {
    var ts := RunTimes(seed, turns);
    && s.lastRunAt == Some(Last(ts))
    && (forall i, j :: 0 <= i <= j < |ts| ==> Later(ts[i], ts[j]))
    && (forall i :: 0 <= i < |ts| - 1 ==> Due(c, Some(ts[i]), ts[i + 1]))
    && Later(Last(ts), now)
    && (turns != [] ==> Later(Last(turns).1, now))
    && (turns != [] && Last(turns).0 != Skipped ==> !Fires(c, Last(ts).minute, Last(turns).1.minute))
  }

  lemma RunTimesMore(seed: Instant, turns: seq<(Outcome, Instant)>, outcome: Outcome, at: Instant)
    ensures RunTimes(seed, turns + [(outcome, at)]) == RunTimes(seed, turns) + if outcome == Ran then [at] else []
    ensures Last(turns + [(outcome, at)]) == (outcome, at)
  {
    assert (turns + [(outcome, at)])[..|turns|] == turns;
  }

  /** What a turn does to the schedule's own clock. */
  lemma TurnClock(c: Compiled, s: Schedule, st: Store, policy: ApprovalPolicy, now: Instant, tape: seq<Tries>)
    requires Compile(s.cron) == Ok(c) && s.lastRunAt.Some?
    ensures var (s', _, outcome) := RunOne(s, st, policy, now, tape);
            && s'.cron == s.cron && s'.id == s.id && outcome != RunFailed
            && s'.lastRunAt == (if outcome == Ran then Some(now) else s.lastRunAt)
            && (outcome == Ran ==> Due(c, s.lastRunAt, now))
            && (outcome == NotDue ==> !Due(c, s.lastRunAt, now))
  {
  }

  /** One turn of the schedule keeps its clock exact. */
  lemma TurnTicks(c: Compiled, seed: Instant, s: Schedule, turns: seq<(Outcome, Instant)>, st: Store,
                  policy: ApprovalPolicy, now: Instant, tape: seq<Tries>)
    requires Ticking(c, seed, s, turns, now) && Compile(s.cron) == Ok(c)
    ensures var (s', _, outcome) := RunOne(s, st, policy, now, tape);
            Ticking(c, seed, s', turns + [(outcome, now)], now)
  {
    var (s', _, outcome) := RunOne(s, st, policy, now, tape);
    TurnClock(c, s, st, policy, now, tape);
    RunTimesMore(seed, turns, outcome, now);
    ClockMoves(c, seed, s, s', turns, outcome, now);
  }

  lemma ClockMoves(c: Compiled, seed: Instant, s: Schedule, s': Schedule, turns: seq<(Outcome, Instant)>,
                   outcome: Outcome, now: Instant)
    requires Ticking(c, seed, s, turns, now)
    requires RunTimes(seed, turns + [(outcome, now)]) == RunTimes(seed, turns) + if outcome == Ran then [now] else []
    requires Last(turns + [(outcome, now)]) == (outcome, now) && outcome != RunFailed
    requires s'.lastRunAt == (if outcome == Ran then Some(now) else s.lastRunAt)
    requires outcome == Ran ==> Due(c, s.lastRunAt, now)
    requires outcome == NotDue ==> !Due(c, s.lastRunAt, now)
    ensures Ticking(c, seed, s', turns + [(outcome, now)], now)
  {
    var ts := RunTimes(seed, turns);
    var ts' := RunTimes(seed, turns + [(outcome, now)]);
    if outcome == Ran {
      assert Last(ts') == now;
      forall i | 0 <= i < |ts'| - 1
        ensures Due(c, Some(ts'[i]), ts'[i + 1])
      {
        if i < |ts| - 1 { assert Due(c, Some(ts[i]), ts[i + 1]); }
      }
    } else {
      assert ts' == ts;
    }
  }

  /** The schedule's turn in a sweep, whatever the store and the tools held when it came. */
  ghost predicate TookTurn(w: World, s: Schedule, s': Schedule, events: seq<Event>) {
    exists st, tape :: TurnIs(w, s, st, tape, s', events)
  }

  ghost predicate TurnIs(w: World, s: Schedule, st: Store, tape: seq<Tries>, s': Schedule, events: seq<Event>) {
    var (after, _, outcome) := RunOne(s, st, w.policy, w.now, tape);
    after == s' && TurnsOf(events, s.id) == [(outcome, w.now)]
  }

  lemma TurnOfOne(e: Event, more: seq<Event>, sid: ScheduleId)
    ensures TurnsOf([e] + more, sid) == (if e.Swept? && e.schedule == sid then [(e.outcome, e.at)] else []) + TurnsOf(more, sid)
  {
    TurnsOfConcat([e], more, sid);
    assert [e][..0] == [];
  }

  lemma RunOneKeepsId(s: Schedule, st: Store, policy: ApprovalPolicy, now: Instant, tape: seq<Tries>)
    ensures RunOne(s, st, policy, now, tape).0.id == s.id
    ensures RunOne(s, st, policy, now, tape).0.cron == s.cron
  {
  }

  /** What a turn leaves alone. */
  lemma TurnFrame(w: World, i: nat, tape: seq<Tries>)
    requires i < |w.schedules|
    ensures var w1 := AfterTurn(w, i, tape).0;
            && |w1.schedules| == |w.schedules| && w1.now == w.now && w1.policy == w.policy
            && (forall k :: 0 <= k < |w.schedules| && k != i ==> w1.schedules[k] == w.schedules[k])
            && w1.schedules[i].id == w.schedules[i].id && w1.schedules[i].cron == w.schedules[i].cron
            && (DistinctSchedules(w.schedules) ==> DistinctSchedules(w1.schedules))
  {
    RunOneKeepsId(w.schedules[i], w.store, w.policy, w.now, tape);
  }

  /** Whatever else happens in a sweep, each schedule gets exactly one turn. */
  lemma {:induction false} SweepTurn(w: World, i: nat, tapes: seq<seq<Tries>>, k: nat)
    requires i <= k < |w.schedules| && DistinctSchedules(w.schedules)
    ensures var (w', events) := SweepStores(w, i, tapes);
            |w'.schedules| == |w.schedules| && w'.now == w.now && TookTurn(w, w.schedules[k], w'.schedules[k], events)
    decreases |w.schedules| - i
  {
    if i == k {
      SweepFromOwn(w, tapes, k);
    } else {
      var (w1, e) := AfterTurn(w, i, TapeAt(tapes, i));
      TurnFrame(w, i, TapeAt(tapes, i));
      SweepTurn(w1, i + 1, tapes, k);
      var (w', more) := SweepStores(w1, i + 1, tapes);
      LaterTurn(w, w1, w.schedules[k], w'.schedules[k], e, more);
    }
  }

  lemma SweepFromOwn(w: World, tapes: seq<seq<Tries>>, k: nat)
    requires k < |w.schedules| && DistinctSchedules(w.schedules)
    ensures var (w', events) := SweepStores(w, k, tapes);
            |w'.schedules| == |w.schedules| && w'.now == w.now && TookTurn(w, w.schedules[k], w'.schedules[k], events)
  {
    var tape := TapeAt(tapes, k);
    var w1 := AfterTurn(w, k, tape).0;
    TurnFrame(w, k, tape);
    SweepSchedules(w1, k + 1, tapes);
    OthersAfterDistinct(w, k, tape);
    NoLaterTurn(w1, k + 1, tapes, w.schedules[k].id);
    OwnTurn(w, k, tape, SweepStores(w1, k + 1, tapes).1);
  }

  lemma OthersAfterDistinct(w: World, k: nat, tape: seq<Tries>)
    requires k < |w.schedules| && DistinctSchedules(w.schedules)
    ensures OthersFrom(AfterTurn(w, k, tape).0.schedules, k + 1, w.schedules[k].id)
  {
    TurnFrame(w, k, tape);
  }

  lemma OwnTurn(w: World, k: nat, tape: seq<Tries>, more: seq<Event>)
    requires k < |w.schedules| && TurnsOf(more, w.schedules[k].id) == []
    ensures var (w1, e) := AfterTurn(w, k, tape);
            TookTurn(w, w.schedules[k], w1.schedules[k], [e] + more)
  {
    var (w1, e) := AfterTurn(w, k, tape);
    TurnOfOne(e, more, w.schedules[k].id);
    assert TurnIs(w, w.schedules[k], w.store, tape, w1.schedules[k], [e] + more);
  }

  lemma LaterTurn(w: World, w1: World, s: Schedule, s': Schedule, e: Event, more: seq<Event>)
    requires w1.policy == w.policy && w1.now == w.now && e.Swept? && e.schedule != s.id
    requires TookTurn(w1, s, s', more)
    ensures TookTurn(w, s, s', [e] + more)
  {
    var st, t :| TurnIs(w1, s, st, t, s', more);
    TurnOfOne(e, more, s.id);
    assert TurnIs(w, s, st, t, s', [e] + more);
  }

  /** The schedules from the `i`th on are others. */
  ghost predicate OthersFrom(schedules: seq<Schedule>, i: nat, sid: ScheduleId) {
    forall j :: i <= j < |schedules| ==> schedules[j].id != sid
  }

  lemma OthersAfter(w: World, i: nat, tape: seq<Tries>, sid: ScheduleId)
    requires i < |w.schedules| && OthersFrom(w.schedules, i, sid)
    ensures var (w1, e) := AfterTurn(w, i, tape);
            OthersFrom(w1.schedules, i + 1, sid) && e.Swept? && e.schedule != sid
  {
    TurnFrame(w, i, tape);
  }

  /** Later turns are not those of an earlier schedule. */
  lemma {:induction false} NoLaterTurn(w: World, i: nat, tapes: seq<seq<Tries>>, sid: ScheduleId)
    requires i <= |w.schedules| && OthersFrom(w.schedules, i, sid)
    ensures TurnsOf(SweepStores(w, i, tapes).1, sid) == []
    decreases |w.schedules| - i
  {
    if i < |w.schedules| {
      var (w1, e) := AfterTurn(w, i, TapeAt(tapes, i));
      OthersAfter(w, i, TapeAt(tapes, i), sid);
      NoLaterTurn(w1, i + 1, tapes, sid);
      TurnOfOne(e, SweepStores(w1, i + 1, tapes).1, sid);
    }
  }

  /** A sweep leaves the earlier schedules alone, and every schedule its id and expression. */
  ghost predicate SchedulesKept(before: World, after: World, i: nat) {
    && |after.schedules| == |before.schedules| && after.now == before.now
    && (forall k :: 0 <= k < |before.schedules| ==>
          after.schedules[k].id == before.schedules[k].id && after.schedules[k].cron == before.schedules[k].cron)
    && forall k :: 0 <= k < i && k < |before.schedules| ==> after.schedules[k] == before.schedules[k]
  }

  lemma KeptTwice(w: World, w1: World, w2: World, i: nat)
    requires SchedulesKept(w, w1, i) && SchedulesKept(w1, w2, i + 1)
    ensures SchedulesKept(w, w2, i)
  {
  }

  lemma {:induction false} SweepSchedules(w: World, i: nat, tapes: seq<seq<Tries>>)
    requires i <= |w.schedules|
    ensures SchedulesKept(w, SweepStores(w, i, tapes).0, i)
    decreases |w.schedules| - i
  {
    if i < |w.schedules| {
      var w1 := AfterTurn(w, i, TapeAt(tapes, i)).0;
      TurnFrame(w, i, TapeAt(tapes, i));
      assert SchedulesKept(w, w1, i);
      SweepSchedules(w1, i + 1, tapes);
      KeptTwice(w, w1, SweepStores(w1, i + 1, tapes).0, i);
    }
  }

  // ----- Ticks over whole runs -----

  /** The registered schedule of this id, with its expression and an exact clock. */
  ghost predicate TickingIn(w: World, sid: ScheduleId, c: Compiled, seed: Instant, turns: seq<(Outcome, Instant)>) {
    exists k :: 0 <= k < |w.schedules| && TickingAt(w, k, sid, c, seed, turns)
  }

  ghost predicate TickingAt(w: World, k: nat, sid: ScheduleId, c: Compiled, seed: Instant, turns: seq<(Outcome, Instant)>)
    requires k < |w.schedules|
  {
    && w.schedules[k].id == sid && Compile(w.schedules[k].cron) == Ok(c)
    && Ticking(c, seed, w.schedules[k], turns, w.now)
  }

  lemma SweepTicks(w: World, tapes: seq<seq<Tries>>, k: nat, sid: ScheduleId, c: Compiled, seed: Instant,
                   turns: seq<(Outcome, Instant)>)
    requires DistinctSchedules(w.schedules) && k < |w.schedules| && TickingAt(w, k, sid, c, seed, turns)
    ensures var (w', events) := SweepStores(w, 0, tapes);
            TickingIn(w', sid, c, seed, turns + TurnsOf(events, sid))
  {
    var (w', events) := SweepStores(w, 0, tapes);
    SweepSchedules(w, 0, tapes);
    SweepTurn(w, 0, tapes, k);
    var st, t :| TurnIs(w, w.schedules[k], st, t, w'.schedules[k], events);
    TurnTicks(c, seed, w.schedules[k], turns, st, w.policy, w.now, t);
    assert TickingAt(w', k, sid, c, seed, turns + TurnsOf(events, sid));
  }

  /** Time passing spoils nothing. */
  lemma TickingLater(c: Compiled, seed: Instant, s: Schedule, turns: seq<(Outcome, Instant)>, now: Instant, later: Instant)
    requires Ticking(c, seed, s, turns, now) && Later(now, later)
    ensures Ticking(c, seed, s, turns, later)
  {
  }

  lemma {:induction false} RemainingKeeps(schedules: seq<Schedule>, sid: ScheduleId, k: nat) returns (j: nat)
    requires k < |schedules| && schedules[k].id != sid
    ensures j < |Remaining(schedules, sid)| && Remaining(schedules, sid)[j] == schedules[k]
  {
    if k == 0 {
      j := 0;
    } else {
      j := RemainingKeeps(schedules[1..], sid, k - 1);
      if schedules[0].id != sid { j := j + 1; }
    }
  }

  /** The schedule is still registered, unchanged, and the clock has not gone back. */
  lemma TickingKept(w: World, w': World, k: nat, j: nat, sid: ScheduleId, c: Compiled, seed: Instant, turns: seq<(Outcome, Instant)>)
    requires k < |w.schedules| && TickingAt(w, k, sid, c, seed, turns)
    requires j < |w'.schedules| && w'.schedules[j] == w.schedules[k] && Later(w.now, w'.now)
    ensures TickingIn(w', sid, c, seed, turns)
  {
    TickingLater(c, seed, w.schedules[k], turns, w.now, w'.now);
    assert TickingAt(w', j, sid, c, seed, turns);
  }

  /** Commands other than the sweep leave a schedule that they do not remove as it was. */
  lemma ScheduleStays(w: World, cmd: Command, k: nat) returns (j: nat)
    requires BatchesSound(w) && k < |w.schedules| && !cmd.SweepDue? && cmd != RemoveSchedule(w.schedules[k].id)
    ensures var w' := Apply(w, cmd).0;
            j < |w'.schedules| && w'.schedules[j] == w.schedules[k]
  {
    j := k;
    match cmd
    case AddSchedule(_, _, _) =>
      if Apply(w, cmd).0.schedules != w.schedules { j := k + 1; }
    case RemoveSchedule(gone) => j := RemainingKeeps(w.schedules, gone, k);
    case _ => OrdinaryCommand(w, cmd);
  }

  lemma CommandTicks(w: World, cmd: Command, sid: ScheduleId, c: Compiled, seed: Instant, turns: seq<(Outcome, Instant)>)
    requires BatchesSound(w) && TickingIn(w, sid, c, seed, turns) && cmd != RemoveSchedule(sid)
    ensures TickingIn(Apply(w, cmd).0, sid, c, seed, turns + TurnsOf(Apply(w, cmd).1, sid))
  {
    var k: nat :| k < |w.schedules| && TickingAt(w, k, sid, c, seed, turns);
    match cmd
    case SweepDue(tapes) =>
      assert Apply(w, cmd) == SweepStores(w, 0, tapes);
      SweepTicks(w, tapes, k, sid, c, seed, turns);
    case _ =>
      QuietTicks(w, cmd, k, sid, c, seed, turns);
  }

  lemma QuietTicks(w: World, cmd: Command, k: nat, sid: ScheduleId, c: Compiled, seed: Instant, turns: seq<(Outcome, Instant)>)
    requires BatchesSound(w) && k < |w.schedules| && TickingAt(w, k, sid, c, seed, turns)
    requires !cmd.SweepDue? && cmd != RemoveSchedule(sid)
    ensures TickingIn(Apply(w, cmd).0, sid, c, seed, turns + TurnsOf(Apply(w, cmd).1, sid))
  {
    NoTurn(w, cmd, sid);
    assert turns + [] == turns;
    ClockForward(w, cmd);
    var j := ScheduleStays(w, cmd, k);
    TickingKept(w, Apply(w, cmd).0, k, j, sid, c, seed, turns);
  }

  lemma ClockForward(w: World, cmd: Command)
    requires !cmd.SweepDue?
    ensures Later(w.now, Apply(w, cmd).0.now)
  {
  }

  lemma ExecuteSweepsNot(w: World, id: ActionId, count: Option<int>, io: ExecIo)
    ensures forall e <- Execute(w, id, count, io).1 :: !e.Swept?
  {
  }

  lemma NoTurn(w: World, cmd: Command, sid: ScheduleId)
    requires !cmd.SweepDue?
    ensures TurnsOf(Apply(w, cmd).1, sid) == []
  {
    var events := Apply(w, cmd).1;
    match cmd {
      case Tool(call, pattern) =>
        if call.Fine? {
          var p := Staged(WriteIn(call), w.policy, pattern && PatternEligible(WriteIn(call), w.policy), None, w.now);
          ExecuteSweepsNot(w.(store := Put(w.store, p)), w.store.nextId, None, call.io);
        }
      case Approve(id, count, io) => ExecuteSweepsNot(w, id, count, io);
      case ConfirmNewest(id, number, io) =>
        ExecuteSweepsNot(w, id, None, io);
        if id in w.store.entries { ExecuteSweepsNot(w.(store := Confirmed(w.store, id, number)), id, None, io); }
      case _ =>
    }
    assert forall e <- events :: !e.Swept?;
    NoTurnIn(events, sid);
  }

  lemma {:induction false} NoTurnIn(events: seq<Event>, sid: ScheduleId)
    requires forall e <- events :: !e.Swept?
    ensures TurnsOf(events, sid) == []
  {
    if events != [] { NoTurnIn(events[..|events| - 1], sid); }
  }

  /** Tick conservation: from a schedule whose clock is seeded, through any commands that do not
      remove it, its clock stays exact. */
  lemma {:induction false} TicksConserved(w: World, cmds: seq<Command>, k: nat, c: Compiled, seed: Instant)
    requires BatchesSound(w) && k < |w.schedules|
    requires w.schedules[k].lastRunAt == Some(seed) && Compile(w.schedules[k].cron) == Ok(c) && Later(seed, w.now)
    requires RemoveSchedule(w.schedules[k].id) !in cmds
    ensures var (w', events) := RunAll(w, cmds);
            && BatchesSound(w')
            && TickingIn(w', w.schedules[k].id, c, seed, TurnsOf(events, w.schedules[k].id))
    decreases |cmds|
  {
    var sid := w.schedules[k].id;
    if cmds == [] {
      assert TickingAt(w, k, sid, c, seed, []);
    } else {
      var n := |cmds| - 1;
      TicksConserved(w, cmds[..n], k, c, seed);
      var (w1, events1) := RunAll(w, cmds[..n]);
      CommandTicks(w1, cmds[n], sid, c, seed, TurnsOf(events1, sid));
      ApplyKeepsBatches(w1, cmds[n]);
      TurnsOfConcat(events1, Apply(w1, cmds[n]).1, sid);
    }
  }

  /** The minute lies in the window that ends with the `i + 1`st of the times. */
  predicate InWindow(ts: seq<Instant>, i: int, minute: nat) {
    0 <= i < |ts| - 1 && ts[i].minute < minute <= ts[i + 1].minute
  }

  lemma {:induction false} SomeWindow(ts: seq<Instant>, minute: nat) returns (i: int)
    requires |ts| > 1 && ts[0].minute < minute <= ts[|ts| - 1].minute
    ensures InWindow(ts, i, minute)
    decreases |ts|
  {
    i := |ts| - 2;
    if ts[i].minute >= minute {
      i := SomeWindow(ts[..|ts| - 1], minute);
    }
  }

  /** An exact clock's run windows are disjoint and leave no gap: a minute after the seed, up to the
      last run, lies in the window of exactly one run. */
  lemma WindowsPartition(ts: seq<Instant>, minute: nat)
    requires ts != []
    requires forall i, j :: 0 <= i <= j < |ts| ==> Later(ts[i], ts[j])
    requires ts[0].minute < minute <= Last(ts).minute
    ensures exists i :: InWindow(ts, i, minute)
    ensures forall i, j :: InWindow(ts, i, minute) && InWindow(ts, j, minute) ==> i == j
  {
    var w := SomeWindow(ts, minute);
    forall i, j | 0 <= i <= j < |ts|
      ensures ts[i].minute <= ts[j].minute
    {
      assert Later(ts[i], ts[j]);
    }
  }

  /** No firing is lost: up to the last turn, every matching minute after the seed lies in the window of
      a run, unless the schedule was then skipped for a pending batch; and then it is still ahead of the
      clock, in the window of the next run. */
  lemma NoFiringLost(w: World, cmds: seq<Command>, k: nat, c: Compiled, seed: Instant, minute: nat)
    requires BatchesSound(w) && k < |w.schedules|
    requires w.schedules[k].lastRunAt == Some(seed) && Compile(w.schedules[k].cron) == Ok(c) && Later(seed, w.now)
    requires RemoveSchedule(w.schedules[k].id) !in cmds
    requires Matches(c, minute) && seed.minute < minute
    ensures var turns := TurnsOf(RunAll(w, cmds).1, w.schedules[k].id);
            var ts := RunTimes(seed, turns);
            turns != [] && minute <= Last(turns).1.minute ==>
              || (exists i :: InWindow(ts, i, minute))
              || (Last(turns).0 == Skipped && minute > Last(ts).minute)
  {
    TicksConserved(w, cmds, k, c, seed);
    var (w', events) := RunAll(w, cmds);
    var turns := TurnsOf(events, w.schedules[k].id);
    var j :| 0 <= j < |w'.schedules| && TickingAt(w', j, w.schedules[k].id, c, seed, turns);
    FiringAccounted(c, seed, w'.schedules[j], turns, w'.now, minute);
  }

  lemma FiringAccounted(c: Compiled, seed: Instant, s: Schedule, turns: seq<(Outcome, Instant)>, now: Instant, minute: nat)
    requires Ticking(c, seed, s, turns, now) && Matches(c, minute) && seed.minute < minute
    ensures var ts := RunTimes(seed, turns);
            turns != [] && minute <= Last(turns).1.minute ==>
              || (exists i :: InWindow(ts, i, minute))
              || (Last(turns).0 == Skipped && minute > Last(ts).minute)
  {
    var ts := RunTimes(seed, turns);
    if minute <= Last(ts).minute {
      WindowsPartition(ts, minute);
    }
  }
}
