/** Whole-run write safety: over any sequence of commands, what changes the portal is the execution
    of a stored pending action, each action executes once, and a gated one only after its count. */
module WriteSafety {
  import opened Wrappers
  import opened Records
  import opened Tools
  import opened Policy
  import opened Cron
  import opened Gate
  import opened Effects
  import opened Loop
  import opened LoopProofs
  import opened Engine
  import Client
  import Pattern
  import Undo
  import Sweep

  // ----- The invariant -----

  ghost predicate HasExecuted(events: seq<Event>, id: ActionId) {
    exists e <- events :: e.Executed? && e.id == id
  }

  /** Ids are minted once, and an executed action is never pending again. */
  ghost predicate IdsSound(st: Store, events: seq<Event>) {
    && (forall id <- st.entries :: id < st.nextId)
    && (forall e <- events :: e.Executed? ==> e.id < st.nextId && e.id !in st.entries)
  }

  /** Deletes, merges and anything else that undo cannot take back. */
  predicate Irreversible(w: Write) {
    w.risk.Destructive? || !IsUndoable(w.intent, w.originals)
  }

  /** A record is a genuine tool write with a tier; it is FULL_GATE, with the write's impact as its
      count, whenever the write cannot be undone (a pattern rule, for the two update tools only, has a
      gate of its own). */
  ghost predicate TierSound(p: Pending) {
    && Genuine(p.write) && WellShaped(p.write) && p.tier.Some?
    && (p.pattern.Some? ==> p.write.tool in PATTERN_ELIGIBLE_TOOLS)
    && (p.pattern.None? && Irreversible(p.write) ==> p.tier == Some(FULL_GATE) && p.required == p.write.impact)
    && (p.pattern.Some? ==> p.tier != Some(AUTO))
  }

  /** Every pending record is soundly tiered, and its confirmed count is none or the required one, supplied. */
  ghost predicate CountsSound(st: Store, events: seq<Event>) {
    forall id <- st.entries :: var p := st.entries[id];
      && TierSound(p)
      && (p.confirmed.None? || (p.confirmed == Some(p.required as int) && CountSupplied(id, p.required) in events))
  }

  /** No action executes twice. */
  ghost predicate ExecutedOnce(events: seq<Event>) {
    forall i, j :: 0 <= i < j < |events| && events[i].Executed? && events[j].Executed? ==> events[i].id != events[j].id
  }

  /** A FULL_GATE action executes only after its exact count was supplied for it. */
  ghost predicate GatedByCount(events: seq<Event>) {
    && (forall e <- events :: e.Executed? ==> TierSound(e.action))
    && forall j :: 0 <= j < |events| && events[j].Executed? && events[j].action.tier == Some(FULL_GATE) ==>
      CountSupplied(events[j].id, events[j].action.required) in events[..j]
  }

  /** The audit log names only actions that executed. */
  ghost predicate AuditSound(audit: seq<AuditEntry>, events: seq<Event>) {
    forall a <- audit :: a.Approved? ==> HasExecuted(events, a.id)
  }

  /** A loop that awaits a verdict does so for an action that executed, and its accounts are exact. */
  ghost predicate LoopSound(loop: Option<LoopView>, events: seq<Event>) {
    loop.Some? ==>
      && Accounted(loop.value)
      && (loop.value.status.AwaitingVerification? ==>
            loop.value.pendingId.Some? && HasExecuted(events, loop.value.pendingId.value))
  }

  ghost predicate Safe(w: World, events: seq<Event>) {
    && IdsSound(w.store, events) && CountsSound(w.store, events)
    && ExecutedOnce(events) && GatedByCount(events)
    && AuditSound(w.audit, events) && LoopSound(w.loop, events)
  }

  // ----- Steps that report no execution -----

  /** New records are fresh and unconfirmed; old ones change at most in origin and time. */
  ghost predicate StoreGrows(st: Store, st': Store) {
    && st.nextId <= st'.nextId
    && forall id <- st'.entries :: var p := st'.entries[id];
         if id in st.entries then p == st.entries[id].(origin := p.origin, storedAt := p.storedAt)
         else st.nextId <= id < st'.nextId && TierSound(p) && p.confirmed.None?
  }

  ghost predicate NoExecution(events: seq<Event>) {
    forall e <- events :: !e.Executed?
  }

  lemma HasExecutedMore(a: seq<Event>, b: seq<Event>, id: ActionId)
    ensures HasExecuted(a + b, id) <==> HasExecuted(a, id) || HasExecuted(b, id)
  {
    if HasExecuted(a, id) {
      var e :| e in a && e.Executed? && e.id == id;
      assert e in a + b;
    }
    if HasExecuted(b, id) {
      var e :| e in b && e.Executed? && e.id == id;
      assert e in a + b;
    }
  }

  /** Reporting things that are not executions keeps what was proved about the reports. */
  lemma EventsMore(events: seq<Event>, more: seq<Event>)
    requires ExecutedOnce(events) && GatedByCount(events) && NoExecution(more)
    ensures ExecutedOnce(events + more) && GatedByCount(events + more)
  {
    var all := events + more;
    assert forall i :: |events| <= i < |all| ==> all[i] in more;
    forall j | 0 <= j < |all| && all[j].Executed? && all[j].action.tier == Some(FULL_GATE)
      ensures CountSupplied(all[j].id, all[j].action.required) in all[..j]
    {
      assert j < |events|;
      assert all[..j] == events[..j];
    }
  }

  lemma QuietStep(w: World, events: seq<Event>, w': World, more: seq<Event>)
    requires Safe(w, events) && NoExecution(more)
    requires StoreGrows(w.store, w'.store)
    requires forall a <- w'.audit :: a.Approved? ==> a in w.audit
    requires LoopSound(w'.loop, events)
    ensures Safe(w', events + more)
  {
    EventsMore(events, more);
    assert forall e <- events + more :: e.Executed? ==> e in events;
    assert forall e <- events :: e in events + more;
    forall id | HasExecuted(events, id)
      ensures HasExecuted(events + more, id)
    {
      HasExecutedMore(events, more, id);
    }
  }

  // ----- Execution -----

  /** One execution: the record leaves the store, and only this action is reported. */
  lemma ExecutionStep(w: World, events: seq<Event>, id: ActionId, p: Pending, others: set<RecordId>, w': World)
    requires Safe(w, events) && id in w.store.entries && w.store.entries[id].(confirmed := p.confirmed) == p
    requires p.tier == Some(FULL_GATE) ==> CountSupplied(id, p.required) in events
    requires w'.store == Drop(w.store, id) && w'.loop == w.loop
    requires forall a <- w'.audit :: a.Approved? ==> a in w.audit || a.id == id
    ensures Safe(w', events + [Executed(id, p, others)])
  {
    var e := Executed(id, p, others);
    var all := events + [e];
    assert all[..|events|] == events;
    assert forall e' <- all :: e' in events || e' == e;
    assert forall e' <- events :: e' in all;
    forall j | 0 <= j < |all| && all[j].Executed? && all[j].action.tier == Some(FULL_GATE)
      ensures CountSupplied(all[j].id, all[j].action.required) in all[..j]
    {
      if j < |events| { assert all[..j] == events[..j]; }
    }
    forall i, j | 0 <= i < j < |all| && all[i].Executed? && all[j].Executed?
      ensures all[i].id != all[j].id
    {
      if j == |events| { assert all[i] in events; }
    }
    forall x | x == id || HasExecuted(events, x)
      ensures HasExecuted(all, x)
    {
      if x == id { assert e in all; } else { HasExecutedMore(events, [e], x); }
    }
  }

  lemma {:induction false} AuditsName(id: ActionId, records: seq<RecordId>, saved: seq<bool>)
    ensures forall a <- RecordAudits(id, records, saved) :: a.ApprovedRecord? && a.id == id
  {
    if records != [] { AuditsName(id, records[..|records| - 1], saved); }
  }

  lemma PerformSafe(w: World, events: seq<Event>, id: ActionId, p: Pending, io: ExecIo)
    requires Safe(w, events) && id in w.store.entries && w.store.entries[id].(confirmed := p.confirmed) == p
    requires p.tier == Some(FULL_GATE) ==> CountSupplied(id, p.required) in events
    ensures var (w', more, _) := Perform(w, id, p, io); Safe(w', events + more)
  {
    var (w', more, result) := Perform(w, id, p, io);
    if !result.Success? {
      QuietStep(w, events, w', more);
    } else {
      if p.pattern.Some? {
        AuditsName(id, Pattern.Run(w.portal, p.pattern.value, Turns(io.turns, |p.pattern.value|)).applied, io.auditSaved);
      }
      ExecutionStep(w, events, id, p, more[0].others, w');
    }
  }

  /** Recording a matching count: the one way `confirmed` ever gets set. */
  lemma CountStep(w: World, events: seq<Event>, id: ActionId)
    requires Safe(w, events) && id in w.store.entries
    ensures var count := w.store.entries[id].required;
            Safe(w.(store := Confirmed(w.store, id, count)), events + [CountSupplied(id, count)])
  {
    var p := w.store.entries[id];
    var e := CountSupplied(id, p.required);
    EventsMore(events, [e]);
    assert forall e' <- events + [e] :: e'.Executed? ==> e' in events;
    assert forall e' <- events :: e' in events + [e];
    assert e in events + [e];
    forall x | HasExecuted(events, x)
      ensures HasExecuted(events + [e], x)
    {
      HasExecutedMore(events, [e], x);
    }
  }

  lemma ExecuteSafe(w: World, events: seq<Event>, id: ActionId, count: Option<int>, io: ExecIo)
    requires Safe(w, events)
    ensures var (w', more, _) := Execute(w, id, count, io); Safe(w', events + more)
  {
    assert events + [] == events;
    if id in w.store.entries {
      var p := w.store.entries[id];
      if !NeedsCount(p) || (count.None? && p.confirmed == Some(p.required as int)) {
        PerformSafe(w, events, id, p, io);
      } else if count == Some(p.required as int) {
        CountedSafe(w, events, id, p, io);
      }
    }
  }

  lemma CountedSafe(w: World, events: seq<Event>, id: ActionId, p: Pending, io: ExecIo)
    requires Safe(w, events) && id in w.store.entries && w.store.entries[id] == p
    ensures var (w', more, _) := Perform(w.(store := Confirmed(w.store, id, p.required)), id, p, io);
            Safe(w', events + ([CountSupplied(id, p.required)] + more))
  {
    CountStep(w, events, id);
    var w1 := w.(store := Confirmed(w.store, id, p.required));
    var supplied := events + [CountSupplied(id, p.required)];
    assert CountSupplied(id, p.required) in supplied;
    PerformSafe(w1, supplied, id, p, io);
    var (_, more, _) := Perform(w1, id, p, io);
    assert events + ([CountSupplied(id, p.required)] + more) == supplied + more;
  }

  lemma ConfirmSafe(w: World, events: seq<Event>, id: ActionId, count: int, io: ExecIo)
    requires Safe(w, events)
    ensures var (w', more, _) := Confirm(w, id, count, io); Safe(w', events + more)
  {
    assert events + [] == events;
    if id in w.store.entries && PromptsForCount(w.store.entries[id]) {
      if count == w.store.entries[id].required { CountThenExecute(w, events, id, io); }
    } else {
      ExecuteSafe(w, events, id, None, io);
    }
  }

  lemma CountThenExecute(w: World, events: seq<Event>, id: ActionId, io: ExecIo)
    requires Safe(w, events) && id in w.store.entries
    ensures var count := w.store.entries[id].required;
            var (w', more, _) := Execute(w.(store := Confirmed(w.store, id, count)), id, None, io);
            Safe(w', events + ([CountSupplied(id, count)] + more))
  {
    var e := CountSupplied(id, w.store.entries[id].required);
    var w1 := w.(store := Confirmed(w.store, id, w.store.entries[id].required));
    CountStep(w, events, id);
    ExecuteSafe(w1, events + [e], id, None, io);
    Regroup(events, e, Execute(w1, id, None, io).1);
  }

  lemma StagedSound(call: Call, originals: map<RecordId, Values>, policy: ApprovalPolicy, pattern: bool,
                    step: Option<int>, now: Instant)
    requires WellShaped(WriteOf(call, originals)) && (pattern ==> PatternEligible(WriteOf(call, originals), policy))
    ensures TierSound(Staged(WriteOf(call, originals), policy, pattern, step, now))
  {
    assert Genuine(WriteOf(call, originals));
  }

  /** An interactive tool call, AUTO included. */
  lemma ToolSafe(w: World, events: seq<Event>, call: ToolOutcome, pattern: bool)
    requires Safe(w, events)
    ensures var (w', more, _) := HandleTool(w, call, pattern, None); Safe(w', events + more)
  {
    assert events + [] == events;
    if call.Fine? && WellShaped(WriteIn(call)) {
      if IsWrite(call.call) {
        var eligible := pattern && PatternEligible(WriteIn(call), w.policy);
        var p := Staged(WriteIn(call), w.policy, eligible, None, w.now);
        StagedSound(call.call, call.originals, w.policy, eligible, None, w.now);
        var w1 := w.(store := Put(w.store, p));
        QuietStep(w, events, w1, []);
        if p.tier == Some(AUTO) { ExecuteSafe(w1, events, w.store.nextId, None, call.io); }
      } else {
        QuietStep(w, events, ReadTool(w, WriteIn(call), call.io), []);
      }
    }
  }

  // ----- The loop's commands -----

  lemma StepGrowsStore(s: LoopView, st: Store, policy: ApprovalPolicy, now: Instant, tries: Tries)
    requires s.current < |s.plan.steps| && forall id <- st.entries :: id < st.nextId
    ensures var st' := DriveStep(s, st, policy, now, tries).store;
            StoreGrows(st, st') && (forall id <- st'.entries :: id < st'.nextId)
  {
    var settled := Client.Settled(tries);
    if settled.Success? && settled.value.Fine? && WellShaped(WriteIn(settled.value)) {
      var number := s.plan.steps[s.current].number;
      StagedSound(settled.value.call, settled.value.originals, policy, false, Some(number), now);
    }
  }

  lemma {:induction false} DriveGrowsStore(s: LoopView, st: Store, policy: ApprovalPolicy, now: Instant, tape: seq<Tries>)
    requires s.current + |tape| >= |s.plan.steps| && forall id <- st.entries :: id < st.nextId
    ensures var st' := Drive(s, st, policy, now, tape).1;
            StoreGrows(st, st') && (forall id <- st'.entries :: id < st'.nextId)
    decreases |s.plan.steps| - s.current
  {
    if s.current < |s.plan.steps| {
      var r := DriveStep(s, st, policy, now, tape[0]);
      StepGrowsStore(s, st, policy, now, tape[0]);
      if r.Go? { DriveGrowsStore(r.loop, r.store, policy, now, tape[1..]); }
    }
  }

  lemma DriveWorldSafe(w: World, events: seq<Event>, s: LoopView, tape: seq<Tries>)
    requires Safe(w, events) && Accounted(s) && s.status.Running?
    ensures DriveWorld(w, s, tape).1 == [] && Safe(DriveWorld(w, s, tape).0, events)
  {
    var t := Padded(tape, |s.plan.steps|);
    DriveGrowsStore(s, w.store, w.policy, w.now, t);
    DriveAccounted(s, w.store, w.policy, w.now, t);
    assert events + [] == events;
    QuietStep(w, events, DriveWorld(w, s, tape).0, []);
  }

  lemma LoopRunSafe(w: World, events: seq<Event>, plan: Option<Plan>, tape: seq<Tries>)
    requires Safe(w, events)
    ensures var (w', more) := RunLoopCommand(w, plan, tape); more == [] && Safe(w', events)
  {
    assert events + [] == events;
    if w.loop.Some? && !Terminal(w.loop.value.status) && !Stale(w.loop.value, w.now) {
      var s := w.loop.value;
      if s.status.AwaitingApproval? {
        ResumeAccounted(s, w.store, w.audit, CreatedIds(w, s), w.now);
        QuietStep(w, events, RunLoopCommand(w, plan, tape).0, []);
      } else if s.status.Running? {
        DriveWorldSafe(w, events, s, tape);
      }
    } else if plan.Some? && PlanValid(plan.value) && Concrete(plan.value) {
      DriveWorldSafe(w, events, Fresh(plan.value, false, w.now), tape);
    } else {
      QuietStep(w, events, w.(loop := None), []);
    }
  }

  lemma VerdictSafe(w: World, events: seq<Event>, v: Verdict, tape: seq<Tries>)
    requires Safe(w, events)
    ensures var (w', more) := VerifyCommand(w, v, tape); more == [] && Safe(w', events)
  {
    assert events + [] == events;
    if w.loop.Some? && w.loop.value.status.AwaitingVerification? {
      VerifyAccounted(w.loop.value, v, w.now);
      var s := Verify(w.loop.value, v, w.now);
      if s.status.Running? { DriveWorldSafe(w, events, s, tape); }
      else { QuietStep(w, events, w.(loop := Some(s)), []); }
    }
  }

  // ----- The sweep -----

  lemma RunOneGrowsStore(s: Sweep.Schedule, st: Store, policy: ApprovalPolicy, now: Instant, tape: seq<Tries>)
    requires forall id <- st.entries :: id < st.nextId
    ensures var (_, st', _) := Sweep.RunOne(s, st, policy, now, tape);
            StoreGrows(st, st') && (forall id <- st'.entries :: id < st'.nextId)
  {
    var gate := Sweep.PassGate(s, st, policy.scheduleQueueTtlDays, now);
    if gate.Some? {
      var (s1, st1) := gate.value;
      DriveGrowsStore(Fresh(s1.plan, true, now), st1, policy, now, Padded(tape, |s1.plan.steps|));
    }
  }

  /** One schedule's turn. */
  lemma TurnSafe(w: World, events: seq<Event>, i: nat, tape: seq<Tries>)
    requires Safe(w, events) && i < |w.schedules|
    ensures var (w1, e) := AfterTurn(w, i, tape); Safe(w1, events + [e])
  {
    RunOneGrowsStore(w.schedules[i], w.store, w.policy, w.now, tape);
    var (w1, e) := AfterTurn(w, i, tape);
    QuietStep(w, events, w1, [e]);
  }

  lemma {:induction false} SweepSafe(w: World, events: seq<Event>, i: nat, tapes: seq<seq<Tries>>)
    requires Safe(w, events) && i <= |w.schedules|
    ensures var (w', more) := SweepStores(w, i, tapes); Safe(w', events + more)
    decreases |w.schedules| - i
  {
    if i == |w.schedules| {
      assert events + [] == events;
    } else {
      var (w1, e) := AfterTurn(w, i, TapeAt(tapes, i));
      TurnSafe(w, events, i, TapeAt(tapes, i));
      SweepSafe(w1, events + [e], i + 1, tapes);
      Regroup(events, e, SweepStores(w1, i + 1, tapes).1);
    }
  }

  lemma Regroup(events: seq<Event>, e: Event, more: seq<Event>)
    ensures events + [e] + more == events + ([e] + more)
  {
  }

  // ----- Main results -----

  lemma ApplySafe(w: World, events: seq<Event>, cmd: Command)
    requires Safe(w, events)
    ensures var (w', more) := Apply(w, cmd); Safe(w', events + more)
  {
    assert events + [] == events;
    match cmd
    case Tool(call, pattern) => ToolSafe(w, events, call, pattern);
    case Approve(id, count, io) => ExecuteSafe(w, events, id, count, io);
    case ConfirmNewest(id, number, io) => ConfirmSafe(w, events, id, number, io);
    case UndoIt(id, acked, raised, replies) => UndoSafe(w, events, id, acked, raised, replies);
    case LoopRun(plan, tape) => LoopRunSafe(w, events, plan, tape);
    case LoopVerdict(v, tape) => VerdictSafe(w, events, v, tape);
    case SweepDue(tapes) => SweepSafe(w, events, 0, tapes);
    case _ => BookKeepingSafe(w, events, cmd);
  }

  lemma UndoSafe(w: World, events: seq<Event>, id: ActionId, acked: set<RecordId>, raised: bool, replies: seq<Undo.DeleteReply>)
    requires Safe(w, events)
    ensures var (w', more) := UndoAction(w, id, acked, raised, replies); Safe(w', events + more)
  {
    var (w', more) := UndoAction(w, id, acked, raised, replies);
    UndoFrame(w, id, acked, raised, replies);
    SameStoreSafe(w, events, w', more);
  }

  /** What an undo leaves alone. */
  lemma UndoFrame(w: World, id: ActionId, acked: set<RecordId>, raised: bool, replies: seq<Undo.DeleteReply>)
    ensures var (w', more) := UndoAction(w, id, acked, raised, replies);
            w'.store == w.store && w'.loop == w.loop && NoExecution(more)
            && (w'.audit == w.audit || w'.audit == w.audit + [UndoneAction(id)])
  {
  }

  lemma SameStoreSafe(w: World, events: seq<Event>, w': World, more: seq<Event>)
    requires Safe(w, events) && NoExecution(more) && w'.store == w.store && w'.loop == w.loop
    requires forall a <- w'.audit :: a.Approved? ==> a in w.audit
    ensures Safe(w', events + more)
  {
    QuietStep(w, events, w', more);
  }

  predicate BookKeeping(cmd: Command) {
    cmd.Reject? || cmd.LoopAbandon? || cmd.ReapPending? || cmd.AddSchedule? || cmd.RemoveSchedule?
    || cmd.SetPolicy? || cmd.Tick? || cmd.Outside?
  }

  lemma BookKeepingSafe(w: World, events: seq<Event>, cmd: Command)
    requires Safe(w, events) && BookKeeping(cmd)
    ensures var (w', more) := Apply(w, cmd); Safe(w', events + more)
  {
    var (w', more) := Apply(w, cmd);
    QuietStep(w, events, w', more);
  }

  /** Over every run from a new installation: each action executes at most once; a FULL_GATE action
      only after its exact required count was supplied for it, and every delete, merge or uncaptured
      update is one; a pending record's confirmed count is none or that value; the audit log and a loop
      awaiting its verdict name only executed actions; and the portal's loop keeps its accounts. */
  lemma {:induction false} WholeRunSafety(w: World, cmds: seq<Command>)
    requires Initial(w)
    ensures Safe(RunAll(w, cmds).0, RunAll(w, cmds).1)
    decreases |cmds|
  {
    if cmds != [] {
      var n := |cmds| - 1;
      WholeRunSafety(w, cmds[..n]);
      ApplySafe(RunAll(w, cmds[..n]).0, RunAll(w, cmds[..n]).1, cmds[n]);
    }
  }

  // ----- What changes a record -----

  /** An execution of this action, completed or broken off, may change the record. */
  ghost predicate ActionTouches(p: Pending, id: RecordId) {
    match p.pattern
    case Some(matched) => id in Pattern.Ids(matched)
    case None => MayTouch(p.write, id)
  }

  /** What was reported may have changed the record. */
  ghost predicate Touches(e: Event, id: RecordId) {
    match e
    case Executed(_, p, others) => id in others || ActionTouches(p, id)
    case PartlyWritten(_, p) => ActionTouches(p, id)
    case UndoTried(_, records, _) => id in records
    case Foreign(written, gone) => id in written || id in gone
    case _ => false
  }

  ghost predicate Spared(events: seq<Event>, id: RecordId) {
    forall e <- events :: !Touches(e, id)
  }

  lemma SparedParts(a: seq<Event>, b: seq<Event>, id: RecordId)
    requires Spared(a + b, id)
    ensures Spared(a, id) && Spared(b, id)
  {
    assert forall e <- a :: e in a + b;
    assert forall e <- b :: e in a + b;
  }

  lemma {:induction false} PatternSpares(portal: Portal, matched: seq<Pattern.Entry>, turns: seq<Pattern.Turn>, id: RecordId)
    requires |turns| == |matched| && id !in Pattern.Ids(matched) && id !in WrittenByOthers(turns)
    ensures SameAt(portal, Pattern.Run(portal, matched, turns).portal, id)
    decreases |matched|
  {
    if matched != [] {
      var n := |matched| - 1;
      assert Pattern.Ids(matched) == Pattern.Ids(matched[..n]) + [matched[n].id];
      assert turns == turns[..n] + [turns[n]] && turns[n] in turns;
      PatternSpares(portal, matched[..n], turns[..n], id);
      assert id !in turns[n].others;
      assert id != matched[n].id;
    }
  }

  lemma PerformSpares(w: World, id: ActionId, p: Pending, io: ExecIo, r: RecordId)
    requires Spared(Perform(w, id, p, io).1, r) && r in w.portal
    ensures SameAt(w.portal, Perform(w, id, p, io).0.portal, r)
  {
    var (w', events, result) := Perform(w, id, p, io);
    if events != [] {
      assert events[0] in events;
      match p.pattern
      case Some(matched) => PatternSpares(w.portal, matched, Turns(io.turns, |matched|), r);
      case None => OnlyNamedRecords(w.objectTypes, w.portal, p.write, io, r);
    }
  }

  lemma ExecuteSpares(w: World, id: ActionId, count: Option<int>, io: ExecIo, r: RecordId)
    requires Spared(Execute(w, id, count, io).1, r) && r in w.portal
    ensures SameAt(w.portal, Execute(w, id, count, io).0.portal, r)
  {
    if id in w.store.entries {
      var p := w.store.entries[id];
      if !NeedsCount(p) || (count.None? && p.confirmed == Some(p.required as int)) {
        PerformSpares(w, id, p, io, r);
      } else if count == Some(p.required as int) {
        var w1 := w.(store := Confirmed(w.store, id, p.required));
        SparedParts([CountSupplied(id, p.required)], Perform(w1, id, p, io).1, r);
        PerformSpares(w1, id, p, io, r);
      }
    }
  }

  lemma ConfirmSpares(w: World, id: ActionId, count: int, io: ExecIo, r: RecordId)
    requires Spared(Confirm(w, id, count, io).1, r) && r in w.portal
    ensures SameAt(w.portal, Confirm(w, id, count, io).0.portal, r)
  {
    if id in w.store.entries && PromptsForCount(w.store.entries[id]) {
      if count == w.store.entries[id].required {
        var w1 := w.(store := Confirmed(w.store, id, count));
        SparedParts([CountSupplied(id, count)], Execute(w1, id, None, io).1, r);
        ExecuteSpares(w1, id, None, io, r);
      }
    } else {
      ExecuteSpares(w, id, None, io, r);
    }
  }

  /** A read changes nothing, because every object tool is taken for a write. */
  lemma ReadKeepsPortal(w: World, call: ToolOutcome)
    requires call.Fine? && !IsWrite(call.call)
    ensures ReadTool(w, WriteIn(call), call.io) == w
  {
    var c := call.call;
    ObjectToolsWrite(c.tool, c.verb, c.payload.objectType, c.registered, c.listed);
  }

  lemma ToolSpares(w: World, call: ToolOutcome, pattern: bool, r: RecordId)
    requires Spared(HandleTool(w, call, pattern, None).1, r) && r in w.portal
    ensures SameAt(w.portal, HandleTool(w, call, pattern, None).0.portal, r)
  {
    if call.Fine? && WellShaped(WriteIn(call)) {
      if IsWrite(call.call) {
        var p := Staged(WriteIn(call), w.policy, pattern && PatternEligible(WriteIn(call), w.policy), None, w.now);
        if p.tier == Some(AUTO) { ExecuteSpares(w.(store := Put(w.store, p)), w.store.nextId, None, call.io, r); }
      } else {
        ReadKeepsPortal(w, call);
      }
    }
  }

  lemma UndoSpares(w: World, id: ActionId, acked: set<RecordId>, raised: bool, replies: seq<Undo.DeleteReply>, r: RecordId)
    requires Spared(UndoAction(w, id, acked, raised, replies).1, r) && r in w.portal
    ensures SameAt(w.portal, UndoAction(w, id, acked, raised, replies).0.portal, r)
  {
    var events := UndoAction(w, id, acked, raised, replies).1;
    if events != [] { assert events[0] in events; }
  }

  /** A sweep's steps go through `handle_tool` like a loop's, and change no record. */
  lemma {:induction false} SweepKeepsPortal(w: World, i: nat, tapes: seq<seq<Tries>>)
    requires i <= |w.schedules|
    ensures SweepStores(w, i, tapes).0.portal == w.portal
    ensures forall e <- SweepStores(w, i, tapes).1 :: e.Swept?
    decreases |w.schedules| - i
  {
    if i < |w.schedules| { SweepKeepsPortal(AfterTurn(w, i, TapeAt(tapes, i)).0, i + 1, tapes); }
  }

  /** The loop, the sweep and the book-keeping never change the portal. */
  lemma OthersKeepPortal(w: World, cmd: Command)
    requires !cmd.Tool? && !cmd.Approve? && !cmd.ConfirmNewest? && !cmd.UndoIt? && !cmd.Outside?
    ensures Apply(w, cmd).0.portal == w.portal
  {
    if cmd.SweepDue? { SweepKeepsPortal(w, 0, cmd.tapes); }
  }

  lemma OutsideSpares(w: World, written: Portal, gone: set<RecordId>, r: RecordId)
    requires Spared([Foreign(written.Keys, gone)], r)
    ensures r !in written && r !in gone
  {
    assert [Foreign(written.Keys, gone)][0] in [Foreign(written.Keys, gone)];
  }

  lemma ApplySpares(w: World, cmd: Command, r: RecordId)
    requires Spared(Apply(w, cmd).1, r) && r in w.portal
    ensures SameAt(w.portal, Apply(w, cmd).0.portal, r)
  {
    match cmd
    case Tool(call, pattern) => ToolSpares(w, call, pattern, r);
    case Approve(id, count, io) => ExecuteSpares(w, id, count, io, r);
    case ConfirmNewest(id, number, io) => ConfirmSpares(w, id, number, io, r);
    case UndoIt(id, acked, raised, replies) => UndoSpares(w, id, acked, raised, replies, r);
    case Outside(written, gone) => OutsideSpares(w, written, gone, r);
    case _ => OthersKeepPortal(w, cmd);
  }

  /** Over every run, from any world: a record that no payload or rule named whose execution was completed
      or broken off, no undo restored or deleted and no other writer changed is exactly as it was.
      Whatever the loops, sweeps, previews and refused approvals of the run did, they did not touch it. */
  lemma {:induction false} UntouchedRecordStays(w: World, cmds: seq<Command>, r: RecordId)
    requires r in w.portal && Spared(RunAll(w, cmds).1, r)
    ensures SameAt(w.portal, RunAll(w, cmds).0.portal, r)
    decreases |cmds|
  {
    if cmds != [] {
      var n := |cmds| - 1;
      var (w1, events1) := RunAll(w, cmds[..n]);
      SparedParts(events1, Apply(w1, cmds[n]).1, r);
      UntouchedRecordStays(w, cmds[..n], r);
      ApplySpares(w1, cmds[n], r);
    }
  }

  // ----- Which commands change the portal -----

  /** An execution of the action was reported, completed or broken off. */
  ghost predicate HasWritten(events: seq<Event>, id: ActionId) {
    exists e <- events :: (e.Executed? || e.PartlyWritten?) && e.id == id
  }

  ghost predicate HasTriedUndo(events: seq<Event>, id: ActionId) {
    exists e <- events :: e.UndoTried? && e.id == id
  }

  lemma HasWrittenMore(e: Event, more: seq<Event>, id: ActionId)
    requires HasWritten(more, id)
    ensures HasWritten([e] + more, id)
  {
    var x :| x in more && (x.Executed? || x.PartlyWritten?) && x.id == id;
    assert x in [e] + more;
  }

  /** An interactive write whose tier is AUTO. */
  predicate GoesUnasked(w: World, call: ToolOutcome, pattern: bool) {
    && call.Fine? && IsWrite(call.call)
    && Staged(WriteIn(call), w.policy, pattern && PatternEligible(WriteIn(call), w.policy), None, w.now).tier == Some(AUTO)
  }

  /** Only an execution of a pending action, completed or broken off, an undo, or another writer changes
      the portal: a loop and a sweep call the same tools, but for them `handle_tool` only stages. */
  lemma PortalChangesOnlyByExecution(w: World, cmd: Command)
    requires Apply(w, cmd).0.portal != w.portal
    ensures || cmd.Outside?
            || (cmd.UndoIt? && cmd.id in w.snapshots && HasTriedUndo(Apply(w, cmd).1, cmd.id))
            || (cmd.Tool? && GoesUnasked(w, cmd.call, cmd.pattern) && HasWritten(Apply(w, cmd).1, w.store.nextId))
            || ((cmd.Approve? || cmd.ConfirmNewest?) && cmd.id in w.store.entries && HasWritten(Apply(w, cmd).1, cmd.id))
  {
    match cmd
    case Tool(call, pattern) => ToolChanges(w, call, pattern);
    case Approve(id, count, io) => ExecuteChanges(w, id, count, io);
    case ConfirmNewest(id, number, io) => ConfirmChanges(w, id, number, io);
    case UndoIt(id, acked, raised, replies) => UndoChanges(w, id, acked, raised, replies);
    case Outside(_, _) =>
    case _ => OthersKeepPortal(w, cmd);
  }

  lemma ToolChanges(w: World, call: ToolOutcome, pattern: bool)
    requires HandleTool(w, call, pattern, None).0.portal != w.portal
    ensures GoesUnasked(w, call, pattern) && HasWritten(HandleTool(w, call, pattern, None).1, w.store.nextId)
  {
    if !IsWrite(call.call) { ReadKeepsPortal(w, call); }
    var p := Staged(WriteIn(call), w.policy, pattern && PatternEligible(WriteIn(call), w.policy), None, w.now);
    ExecuteChanges(w.(store := Put(w.store, p)), w.store.nextId, None, call.io);
  }

  lemma UndoChanges(w: World, id: ActionId, acked: set<RecordId>, raised: bool, replies: seq<Undo.DeleteReply>)
    requires UndoAction(w, id, acked, raised, replies).0.portal != w.portal
    ensures id in w.snapshots && HasTriedUndo(UndoAction(w, id, acked, raised, replies).1, id)
  {
    var events := UndoAction(w, id, acked, raised, replies).1;
    if events != [] { assert events[0] in events; }
  }

  lemma ConfirmChanges(w: World, id: ActionId, count: int, io: ExecIo)
    ensures var (w', events, _) := Confirm(w, id, count, io);
            w'.portal != w.portal ==> id in w.store.entries && HasWritten(events, id)
  {
    if id in w.store.entries && PromptsForCount(w.store.entries[id]) && count == w.store.entries[id].required {
      var w1 := w.(store := Confirmed(w.store, id, count));
      ExecuteChanges(w1, id, None, io);
      var (w', more, _) := Execute(w1, id, None, io);
      if w'.portal != w.portal { HasWrittenMore(CountSupplied(id, count), more, id); }
    } else {
      ExecuteChanges(w, id, None, io);
    }
  }

  lemma ExecuteChanges(w: World, id: ActionId, count: Option<int>, io: ExecIo)
    ensures var (w', events, _) := Execute(w, id, count, io);
            w'.portal != w.portal ==> id in w.store.entries && HasWritten(events, id)
  {
    if id in w.store.entries {
      var p := w.store.entries[id];
      PerformChanges(w, id, p, io);
      if count.Some? {
        var w1 := w.(store := Confirmed(w.store, id, count.value));
        PerformChanges(w1, id, p, io);
        var (w', more, _) := Perform(w1, id, p, io);
        if w'.portal != w.portal { HasWrittenMore(CountSupplied(id, count.value), more, id); }
      }
    }
  }

  lemma PerformChanges(w: World, id: ActionId, p: Pending, io: ExecIo)
    ensures var (w', events, _) := Perform(w, id, p, io);
            w'.portal != w.portal ==> HasWritten(events, id)
  {
    var (w', events, _) := Perform(w, id, p, io);
    if events != [] { assert events[0] in events && events[0].id == id; }
  }

  // ----- How a record vanishes -----

  /** The report of how the record may have gone: a delete or merge of it that was gated by its count, a
      tool of unknown reach, an undo of a create, or another writer. */
  ghost predicate Removes(events: seq<Event>, j: nat, r: RecordId)
    requires j < |events|
  {
    match events[j]
    case Executed(id, p, _) =>
      p.pattern.None? && MayRemove(p.write, r) && (Unbounded(p.write) || CountSupplied(id, p.required) in events[..j])
    case PartlyWritten(_, p) => p.pattern.None? && Unbounded(p.write)
    case UndoTried(_, records, deletes) => deletes && r in records
    case Foreign(_, gone) => r in gone
    case _ => false
  }

  ghost predicate Removed(events: seq<Event>, r: RecordId) {
    exists j :: 0 <= j < |events| && Removes(events, j, r)
  }

  /** What may have made the record vanish, before the gate is taken into account. */
  ghost predicate MayHaveGone(events: seq<Event>, r: RecordId) {
    exists e <- events :: MayGoBy(e, r)
  }

  ghost predicate MayGoBy(e: Event, r: RecordId) {
    match e
    case Executed(_, p, _) => p.pattern.None? && MayRemove(p.write, r)
    case PartlyWritten(_, p) => p.pattern.None? && Unbounded(p.write)
    case UndoTried(_, records, deletes) => deletes && r in records
    case Foreign(_, gone) => r in gone
    case _ => false
  }

  lemma GoneMore(e: Event, more: seq<Event>, r: RecordId)
    requires MayHaveGone(more, r)
    ensures MayHaveGone([e] + more, r)
  {
    var x :| x in more && MayGoBy(x, r);
    assert x in [e] + more;
  }

  lemma {:induction false} PatternKeepsRecords(portal: Portal, matched: seq<Pattern.Entry>, turns: seq<Pattern.Turn>)
    requires |turns| == |matched|
    ensures portal.Keys <= Pattern.Run(portal, matched, turns).portal.Keys
    decreases |matched|
  {
    if matched != [] { PatternKeepsRecords(portal, matched[..|matched| - 1], turns[..|matched| - 1]); }
  }

  lemma InvokeRemoves(types: set<string>, portal: Portal, w: Write, io: ExecIo, r: RecordId)
    requires r in portal && r !in Invoke(types, portal, w, io).portal
    ensures MayRemove(w, r) && (!Invoke(types, portal, w, io).ok ==> Unbounded(w))
  {
  }

  lemma PerformRemovesRecord(w: World, id: ActionId, p: Pending, io: ExecIo, r: RecordId)
    requires r in w.portal && r !in Perform(w, id, p, io).0.portal
    ensures MayHaveGone(Perform(w, id, p, io).1, r)
  {
    var (w', events, _) := Perform(w, id, p, io);
    match p.pattern {
      case Some(matched) => PatternKeepsRecords(w.portal, matched, Turns(io.turns, |matched|));
      case None =>
        InvokeRemoves(w.objectTypes, w.portal, p.write, io, r);
        assert events != [] && events[0] in events && MayGoBy(events[0], r);
    }
  }

  lemma ExecuteRemovesRecord(w: World, id: ActionId, count: Option<int>, io: ExecIo, r: RecordId)
    requires r in w.portal && r !in Execute(w, id, count, io).0.portal
    ensures MayHaveGone(Execute(w, id, count, io).1, r)
  {
    var p := w.store.entries[id];
    if !NeedsCount(p) || count.None? {
      PerformRemovesRecord(w, id, p, io, r);
    } else {
      var w1 := w.(store := Confirmed(w.store, id, count.value));
      PerformRemovesRecord(w1, id, p, io, r);
      GoneMore(CountSupplied(id, count.value), Perform(w1, id, p, io).1, r);
    }
  }

  lemma ConfirmRemovesRecord(w: World, id: ActionId, count: int, io: ExecIo, r: RecordId)
    requires r in w.portal && r !in Confirm(w, id, count, io).0.portal
    ensures MayHaveGone(Confirm(w, id, count, io).1, r)
  {
    if id in w.store.entries && PromptsForCount(w.store.entries[id]) {
      var w1 := w.(store := Confirmed(w.store, id, count));
      ExecuteRemovesRecord(w1, id, None, io, r);
      GoneMore(CountSupplied(id, count), Execute(w1, id, None, io).1, r);
    } else {
      ExecuteRemovesRecord(w, id, None, io, r);
    }
  }

  lemma ToolRemovesRecord(w: World, call: ToolOutcome, pattern: bool, r: RecordId)
    requires r in w.portal && r !in HandleTool(w, call, pattern, None).0.portal
    ensures MayHaveGone(HandleTool(w, call, pattern, None).1, r)
  {
    if !IsWrite(call.call) { ReadKeepsPortal(w, call); }
    var p := Staged(WriteIn(call), w.policy, pattern && PatternEligible(WriteIn(call), w.policy), None, w.now);
    ExecuteRemovesRecord(w.(store := Put(w.store, p)), w.store.nextId, None, call.io, r);
  }

  lemma UndoRemovesRecord(w: World, id: ActionId, acked: set<RecordId>, raised: bool, replies: seq<Undo.DeleteReply>, r: RecordId)
    requires r in w.portal && r !in UndoAction(w, id, acked, raised, replies).0.portal
    ensures MayHaveGone(UndoAction(w, id, acked, raised, replies).1, r)
  {
    var events := UndoAction(w, id, acked, raised, replies).1;
    assert events != [] && events[0] in events && MayGoBy(events[0], r);
  }

  lemma OutsideRemovesRecord(written: Portal, gone: set<RecordId>, r: RecordId)
    requires r in gone
    ensures MayHaveGone([Foreign(written.Keys, gone)], r)
  {
    var events := [Foreign(written.Keys, gone)];
    assert events[0] in events && MayGoBy(events[0], r);
  }

  lemma ApplyRemovesRecord(w: World, cmd: Command, r: RecordId)
    requires r in w.portal && r !in Apply(w, cmd).0.portal
    ensures MayHaveGone(Apply(w, cmd).1, r)
  {
    match cmd
    case Tool(call, pattern) => ToolRemovesRecord(w, call, pattern, r);
    case Approve(id, count, io) => ExecuteRemovesRecord(w, id, count, io, r);
    case ConfirmNewest(id, number, io) => ConfirmRemovesRecord(w, id, number, io, r);
    case UndoIt(id, acked, raised, replies) => UndoRemovesRecord(w, id, acked, raised, replies, r);
    case Outside(written, gone) => OutsideRemovesRecord(written, gone, r);
    case _ => OthersKeepPortal(w, cmd);
  }

  /** A genuine delete or merge is FULL_GATE, so its execution had its count. */
  lemma RemovalWasGated(events: seq<Event>, j: nat, r: RecordId)
    requires GatedByCount(events) && j < |events| && MayGoBy(events[j], r)
    ensures Removes(events, j, r)
  {
    if events[j].Executed? && !Unbounded(events[j].action.write) {
      assert events[j] in events;
      GenuineIntent(events[j].action.write);
    }
  }

  /** Over every run from a new installation: a record vanishes only by a delete or a merge that names it,
      after the count was supplied for that action, by a tool of unknown reach, by an undo of a create,
      or by another writer. */
  lemma {:induction false} RecordVanishesAfterCount(w: World, cmds: seq<Command>, r: RecordId)
    requires Initial(w) && r in w.portal && r !in RunAll(w, cmds).0.portal
    ensures Removed(RunAll(w, cmds).1, r)
    decreases |cmds|
  {
    var n := |cmds| - 1;
    var (w1, events1) := RunAll(w, cmds[..n]);
    WholeRunSafety(w, cmds);
    var more := Apply(w1, cmds[n]).1;
    if r in w1.portal {
      ApplyRemovesRecord(w1, cmds[n], r);
      JustRemoved(events1, more, r);
    } else {
      RecordVanishesAfterCount(w, cmds[..n], r);
      RemovedStays(events1, more, r);
    }
  }

  lemma GoneAt(events: seq<Event>, r: RecordId) returns (k: nat)
    requires MayHaveGone(events, r)
    ensures k < |events| && MayGoBy(events[k], r)
  {
    var e :| e in events && MayGoBy(e, r);
    k :| 0 <= k < |events| && events[k] == e;
  }

  lemma JustRemoved(a: seq<Event>, b: seq<Event>, r: RecordId)
    requires MayHaveGone(b, r) && GatedByCount(a + b)
    ensures Removed(a + b, r)
  {
    var k := GoneAt(b, r);
    assert (a + b)[|a| + k] == b[k];
    RemovalWasGated(a + b, |a| + k, r);
  }

  lemma RemovedStays(a: seq<Event>, b: seq<Event>, r: RecordId)
    requires Removed(a, r)
    ensures Removed(a + b, r)
  {
    var j :| 0 <= j < |a| && Removes(a, j, r);
    assert (a + b)[..j] == a[..j] && (a + b)[j] == a[j];
    assert Removes(a + b, j, r);
  }

  // ----- Counts -----

  /** A count is only ever supplied by somebody typing it: `approve id count` or `confirm count`. */
  lemma CountsComeFromPeople(w: World, cmd: Command, id: ActionId, count: int)
    requires CountSupplied(id, count) in Apply(w, cmd).1
    ensures (cmd.Approve? && cmd.id == id && cmd.count == Some(count))
         || (cmd.ConfirmNewest? && cmd.id == id && cmd.number == count)
  {
    match cmd
    case SweepDue(tapes) => SweepKeepsPortal(w, 0, tapes);
    case Tool(call, pattern) => AutoNeedsNoCount(w, call, pattern);
    case Approve(a, c, io) => ExecuteCounts(w, a, c, io);
    case ConfirmNewest(a, number, io) =>
      ExecuteCounts(w, a, None, io);
      if a in w.store.entries { ExecuteCounts(w.(store := Confirmed(w.store, a, number)), a, None, io); }
    case _ =>
  }

  lemma ExecuteCounts(w: World, id: ActionId, count: Option<int>, io: ExecIo)
    ensures forall e <- Execute(w, id, count, io).1 :: e.CountSupplied? ==> e.id == id && count == Some(e.count)
  {
  }

  lemma AutoNeedsNoCount(w: World, call: ToolOutcome, pattern: bool)
    ensures forall e <- HandleTool(w, call, pattern, None).1 :: !e.CountSupplied?
  {
    if call.Fine? {
      var p := Staged(WriteIn(call), w.policy, pattern && PatternEligible(WriteIn(call), w.policy), None, w.now);
      ExecuteCounts(w.(store := Put(w.store, p)), w.store.nextId, None, call.io);
    }
  }
}
