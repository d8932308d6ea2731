/** What the loop does with each answer and each verdict, said of the answers and verdicts themselves. */
module LoopFacts {
  import opened Wrappers
  import opened Records
  import opened Tools
  import opened Policy
  import opened Cron
  import opened Gate
  import opened Effects
  import opened Loop
  import opened LoopProofs
  import opened Engine
  import Client

  // ----- What a finished step leaves -----

  /** The first id that a result carries. */
  ghost predicate Carries(result: ToolResult, id: string) {
    id != "" && match result
      case Whole(_, own) => own == id
      case Listing(_, ids) => exists j :: 0 <= j < |ids| && ids[j] == id && forall l :: 0 <= l < j ==> ids[l] == ""
  }

  /** The artifact of a read: the result's text, and its first id under the step's first artifact key. */
  ghost predicate HoldsAnswer(a: Artifact, step: PlanStep, result: ToolResult) {
    && a.step == step.number && a.createdIds == [] && "result" in a.outputs
    && (a.outputs["result"] == [result.text]
        || (step.artifactKeys != [] && step.artifactKeys[0] == "result" && exists id :: Carries(result, id)))
    && (forall id :: Carries(result, id) && step.artifactKeys != [] ==>
          step.artifactKeys[0] in a.outputs && a.outputs[step.artifactKeys[0]] == [id])
    && forall key <- a.outputs :: key == "result"
         || (step.artifactKeys != [] && key == step.artifactKeys[0] && exists id :: Carries(result, id))
  }

  lemma {:induction false} FirstIdIs(ids: seq<string>)
    ensures FirstId(ids) == "" ==> forall j :: 0 <= j < |ids| ==> ids[j] == ""
    ensures FirstId(ids) != "" ==>
              exists j :: 0 <= j < |ids| && ids[j] == FirstId(ids) && forall l :: 0 <= l < j ==> ids[l] == ""
  {
    if ids != [] && ids[0] == "" {
      FirstIdIs(ids[1..]);
      if FirstId(ids) != "" {
        var j :| 0 <= j < |ids[1..]| && ids[1..][j] == FirstId(ids) && forall l :: 0 <= l < j ==> ids[1..][l] == "";
        assert ids[j + 1] == FirstId(ids);
        assert forall l :: 1 <= l < j + 1 ==> ids[l] == ids[1..][l - 1];
      } else {
        assert forall j :: 1 <= j < |ids| ==> ids[j] == ids[1..][j - 1];
      }
    }
  }

  lemma ReadHoldsAnswer(step: PlanStep, result: ToolResult)
    ensures HoldsAnswer(ReadArtifact(step, result), step, result)
  {
    var id := if result.Listing? then FirstId(result.ids) else result.id;
    if result.Listing? { FirstIdIs(result.ids); }
    assert id != "" ==> Carries(result, id);
    forall other | Carries(result, other)
      ensures other == id
    {
    }
  }

  /** Over every interactive drive: each step that it finished was answered by a read, and its artifact, in
      its place, holds exactly that answer; earlier artifacts stay. */
  lemma {:induction false} DriveHoldsAnswers(s: LoopView, st: Store, policy: ApprovalPolicy, now: Instant, tape: seq<Tries>)
    requires !s.scheduled && s.current + |tape| >= |s.plan.steps|
    ensures var s' := Drive(s, st, policy, now, tape).0;
            && s.current <= s'.current && s.artifacts <= s'.artifacts
            && |s'.artifacts| - |s.artifacts| == s'.current - s.current
            && forall i :: s.current <= i < s'.current ==> Answered(s, s', tape, i)
    decreases |s.plan.steps| - s.current
  {
    if s.current < |s.plan.steps| {
      var r := DriveStep(s, st, policy, now, tape[0]);
      if r.Go? {
        var c := r.loop;
        StepAnswers(s, st, policy, now, tape[0]);
        DriveHoldsAnswers(c, r.store, policy, now, tape[1..]);
        AnsweredAll(s, c, Drive(c, r.store, policy, now, tape[1..]).0, tape);
      }
    }
  }

  lemma AnsweredAll(s: LoopView, c: LoopView, s': LoopView, tape: seq<Tries>)
    requires tape != [] && c.plan == s.plan && c.current == s.current + 1 && |c.artifacts| == |s.artifacts| + 1
    requires c.artifacts <= s'.artifacts && s.current < |s.plan.steps|
    requires forall i :: c.current <= i < s'.current ==> Answered(c, s', tape[1..], i)
    requires var a := Client.Settled(tape[0]);
             && a.Success? && a.value.Fine? && !IsWrite(a.value.call)
             && HoldsAnswer(c.artifacts[|s.artifacts|], s.plan.steps[s.current], a.value.result)
    ensures forall i :: s.current <= i < s'.current ==> Answered(s, s', tape, i)
  {
    forall i | s.current < i < s'.current
      ensures Answered(s, s', tape, i)
    {
      assert Answered(c, s', tape[1..], i);
      assert tape[i - s.current] == tape[1..][i - c.current];
    }
  }

  ghost predicate Answered(s: LoopView, s': LoopView, tape: seq<Tries>, i: int)
    requires s.current <= i
  {
    && i - s.current < |tape| && i < |s.plan.steps| && |s.artifacts| + i - s.current < |s'.artifacts|
    && var a := Client.Settled(tape[i - s.current]);
       && a.Success? && a.value.Fine? && !IsWrite(a.value.call)
       && HoldsAnswer(s'.artifacts[|s.artifacts| + i - s.current], s.plan.steps[i], a.value.result)
  }

  lemma StepAnswers(s: LoopView, st: Store, policy: ApprovalPolicy, now: Instant, tries: Tries)
    requires !s.scheduled && s.current < |s.plan.steps| && DriveStep(s, st, policy, now, tries).Go?
    ensures var c := DriveStep(s, st, policy, now, tries).loop;
            var a := Client.Settled(tries);
            && c.plan == s.plan && !c.scheduled && c.current == s.current + 1
            && |c.artifacts| == |s.artifacts| + 1 && s.artifacts <= c.artifacts
            && a.Success? && a.value.Fine? && !IsWrite(a.value.call)
            && HoldsAnswer(c.artifacts[|s.artifacts|], s.plan.steps[s.current], a.value.result)
  {
    var a := Client.Settled(tries);
    if a.Success? && a.value.Fine? { ReadHoldsAnswer(s.plan.steps[s.current], a.value.result); }
  }

  /** The artifact of an executed write: the recorded ids, and the first also under the step's first key. */
  ghost predicate HoldsIds(a: Artifact, step: PlanStep, ids: seq<string>) {
    && a.step == step.number && a.createdIds == ids
    && (forall key <- a.outputs :: ids != [] && (key == "created_ids" || (step.artifactKeys != [] && key == step.artifactKeys[0])))
    && (ids != [] ==> "created_ids" in a.outputs)
    && (ids != [] ==> a.outputs["created_ids"] == ids || (step.artifactKeys != [] && step.artifactKeys[0] == "created_ids"))
    && (ids != [] && step.artifactKeys != [] ==>
          step.artifactKeys[0] in a.outputs && a.outputs[step.artifactKeys[0]] == [ids[0]])
  }

  /** Resuming after the approval: the loop awaits a verdict, the step's artifact holds what was recorded. */
  lemma ResumeHoldsIds(s: LoopView, st: Store, audit: seq<AuditEntry>, createdIds: seq<string>, now: Instant)
    requires Accounted(s) && s.status.AwaitingApproval?
    requires s.pendingId.value !in st.entries && Approved(s.pendingId.value) in Recent(audit)
    ensures var t := Resume(s, st, audit, createdIds, now);
            && t == s.(artifacts := t.artifacts, status := AwaitingVerification, updatedAt := now)
            && |t.artifacts| == s.current + 1 && t.artifacts[..s.current] == s.artifacts
            && HoldsIds(t.artifacts[s.current], s.plan.steps[s.current], createdIds)
  {
    EarlierArtifacts(s.artifacts, s.plan, s.current);
  }

  /** The approval is looked for among the last two hundred audit entries. */
  lemma LooksBackTwoHundred(s: LoopView, st: Store, audit: seq<AuditEntry>, createdIds: seq<string>, now: Instant)
    requires s.current < |s.plan.steps| && s.pendingId.Some? && s.pendingId.value !in st.entries
    ensures var t := Resume(s, st, audit, createdIds, now);
            var seen := exists i :: 0 <= i < |audit| && |audit| - 200 <= i && audit[i] == Approved(s.pendingId.value);
            if seen then t.status.AwaitingVerification? else t.status.Halted? && t.artifacts == s.artifacts
  {
    var recent := Recent(audit);
    if Approved(s.pendingId.value) in recent {
      var j :| 0 <= j < |recent| && recent[j] == Approved(s.pendingId.value);
      assert audit[j + |audit| - |recent|] == recent[j];
    }
    forall i | 0 <= i < |audit| && |audit| - 200 <= i && audit[i] == Approved(s.pendingId.value)
      ensures Approved(s.pendingId.value) in recent
    {
      assert recent[i - (|audit| - |recent|)] == audit[i];
    }
  }

  // ----- When a step reaches its tool -----

  /** Some prerequisite's latest artifact holds the key. */
  ghost predicate HasInput(step: PlanStep, artifacts: seq<Artifact>, key: string) {
    exists i, j :: 0 <= i < |step.prerequisites| && 0 <= j < |artifacts| && Latest(artifacts, j)
      && step.prerequisites[i] == Some(artifacts[j].step) && key in artifacts[j].outputs
  }

  ghost predicate Latest(artifacts: seq<Artifact>, j: int)
    requires 0 <= j < |artifacts|
  {
    forall l :: j < l < |artifacts| ==> artifacts[l].step != artifacts[j].step
  }

  lemma {:induction false} ArtifactOfIs(artifacts: seq<Artifact>, number: int)
    ensures ArtifactOf(artifacts, number).None? <==> forall j :: 0 <= j < |artifacts| ==> artifacts[j].step != number
    ensures ArtifactOf(artifacts, number).Some? ==>
              exists j :: 0 <= j < |artifacts| && Latest(artifacts, j) && artifacts[j] == ArtifactOf(artifacts, number).value
                          && artifacts[j].step == number
    decreases |artifacts|
  {
    if artifacts != [] {
      var n := |artifacts| - 1;
      ArtifactOfIs(artifacts[..n], number);
      if artifacts[n].step == number {
        assert Latest(artifacts, n);
      } else if ArtifactOf(artifacts, number).Some? {
        var j :| 0 <= j < n && Latest(artifacts[..n], j) && artifacts[..n][j] == ArtifactOf(artifacts[..n], number).value
          && artifacts[..n][j].step == number;
        forall l | j < l < |artifacts|
          ensures artifacts[l].step != artifacts[j].step
        {
          if l < n { assert artifacts[..n][l] == artifacts[l]; }
        }
        assert Latest(artifacts, j);
      } else {
        assert forall j :: 0 <= j < n ==> artifacts[..n][j] == artifacts[j];
      }
    }
  }

  lemma SuppliesIs(p: Option<int>, artifacts: seq<Artifact>, key: string)
    ensures Supplies(p, artifacts, key) <==>
              exists j :: 0 <= j < |artifacts| && Latest(artifacts, j) && p == Some(artifacts[j].step) && key in artifacts[j].outputs
  {
    if p.Some? {
      ArtifactOfIs(artifacts, p.value);
      forall j | 0 <= j < |artifacts| && Latest(artifacts, j) && artifacts[j].step == p.value
        ensures ArtifactOf(artifacts, p.value) == Some(artifacts[j])
      {
      }
    }
  }

  lemma InputsIff(step: PlanStep, artifacts: seq<Artifact>)
    ensures step.needs <= Resolved(step.prerequisites, artifacts).Keys <==> forall key <- step.needs :: HasInput(step, artifacts, key)
  {
    forall key <- step.needs
      ensures key in Resolved(step.prerequisites, artifacts) <==> HasInput(step, artifacts, key)
    {
      ResolvedByLast(step.prerequisites, artifacts, key);
      forall i | 0 <= i < |step.prerequisites|
        ensures Supplies(step.prerequisites[i], artifacts, key) <==>
                  exists j :: 0 <= j < |artifacts| && Latest(artifacts, j)
                    && step.prerequisites[i] == Some(artifacts[j].step) && key in artifacts[j].outputs
      {
        SuppliesIs(step.prerequisites[i], artifacts, key);
      }
    }
  }

  /** Within both budgets, not free text in a scheduled run, and every placeholder supplied. */
  ghost predicate MayCall(s: LoopView) {
    && s.current < |s.plan.steps| && s.stepCount < s.plan.maxSteps && s.apiCalls < s.plan.maxApiCalls
    && (s.plan.steps[s.current].toolName.Some? || !s.scheduled)
    && forall key <- s.plan.steps[s.current].needs :: HasInput(s.plan.steps[s.current], s.artifacts, key)
  }

  function Counted(s: LoopView): LoopView { s.(stepCount := s.stepCount + 1, apiCalls := s.apiCalls + 1) }

  /** Such a step is counted and reaches its tool, and the drive is what the tool's answer makes of it. */
  lemma ToolReached(s: LoopView, st: Store, policy: ApprovalPolicy, now: Instant, tape: seq<Tries>)
    requires MayCall(s) && s.current + |tape| >= |s.plan.steps|
    ensures var step, a := s.plan.steps[s.current], Client.Settled(tape[0]);
            var r := Drive(s, st, policy, now, tape);
            match a
            case Raised(error, _, _) => r == (Counted(s).(status := Failed, lastError := Some(error), updatedAt := now), st)
            case Success(outcome) =>
              match outcome
              case Refused(error) => r == (Counted(s).(status := Failed, lastError := Some(error), updatedAt := now), st)
              case Fine(call, result, originals, _) =>
                && (!WellShaped(WriteOf(call, originals)) ==> r.0.status.Failed? && r.1 == st)
                && (WellShaped(WriteOf(call, originals)) && IsWrite(call) && !s.scheduled ==>
                      && r.0 == Counted(s).(pendingId := Some(st.nextId), status := AwaitingApproval, updatedAt := now)
                      && HoldsPreview(st, r.1, call, originals, step))
                && (WellShaped(WriteOf(call, originals)) && IsWrite(call) && s.scheduled ==>
                      exists st1 :: HoldsPreview(st, st1, call, originals, step)
                        && r == Drive(Counted(s).(staged := s.staged + [st.nextId], current := s.current + 1), st1, policy, now, tape[1..]))
                && (WellShaped(WriteOf(call, originals)) && !IsWrite(call) ==>
                      exists art :: HoldsAnswer(art, step, result)
                        && r == Drive(Counted(s).(artifacts := s.artifacts + [art], current := s.current + 1), st, policy, now, tape[1..]))
  {
    var step, a := s.plan.steps[s.current], Client.Settled(tape[0]);
    InputsIff(step, s.artifacts);
    if a.Success? && a.value.Fine? {
      ReadHoldsAnswer(step, a.value.result);
      var st1 := Put(st, Staged(WriteIn(a.value), policy, false, Some(step.number), now));
      assert HoldsPreview(st, st1, a.value.call, a.value.originals, step);
    }
  }

  /** One more pending record: this call's, tagged with its step and not yet confirmed. */
  ghost predicate HoldsPreview(st: Store, st1: Store, call: Call, originals: map<RecordId, Values>, step: PlanStep) {
    && st1.nextId == st.nextId + 1 && st.nextId in st1.entries && st1.entries == st.entries[st.nextId := st1.entries[st.nextId]]
    && var p := st1.entries[st.nextId];
       && p.write.tool == call.tool && p.write.payload == call.payload && p.write.originals == originals
       && p.loopStep == Some(step.number) && p.confirmed.None? && p.pattern.None? && p.origin.None?
  }

  /** Any other step does not: the drive ends there, whatever the tool would have answered, with the store
      as it was, and stopped, not failed, exactly when it is a budget that is spent. */
  lemma ToolNotReached(s: LoopView, st: Store, policy: ApprovalPolicy, now: Instant, tape: seq<Tries>)
    requires s.current < |s.plan.steps| && !MayCall(s) && s.current + |tape| >= |s.plan.steps|
    ensures var (s', st') := Drive(s, st, policy, now, tape);
            && st' == st && s'.current == s.current && s'.artifacts == s.artifacts && s'.staged == s.staged
            && (if s.stepCount >= s.plan.maxSteps || s.apiCalls >= s.plan.maxApiCalls
                then s'.status.OutOfBudget? && s'.stepCount == s.stepCount && s'.apiCalls == s.apiCalls
                else s'.status.Failed? && s'.stepCount == s.stepCount + 1 && s'.apiCalls == s.apiCalls + 1)
  {
    InputsIff(s.plan.steps[s.current], s.artifacts);
  }

  // ----- What a verdict makes of the loop -----

  ghost predicate Spent(s: LoopView) {
    s.iterations >= s.plan.maxIterations || s.stepCount >= s.plan.maxSteps || s.apiCalls >= s.plan.maxApiCalls
  }

  ghost predicate ErrorsSpent(s: LoopView) {
    s.lastError.Some? && s.lastError.value != "" && s.iterations >= s.plan.errorBudget
  }

  /** The verdicts weighed so far and this one end in a full plateau. */
  ghost predicate PlateauFull(s: LoopView, verdicts: seq<Verdict>) {
    s.plan.verificationPlateau <= 0 || SameMismatch(verdicts, s.plan.verificationPlateau)
  }

  /** `t` is `s` with its two controller fields brought up to date and no pending action. */
  ghost predicate Judged(s: LoopView, t: LoopView, now: Instant, status: Status) {
    t == s.(lastHash := t.lastHash, plateau := t.plateau, pendingId := None, updatedAt := now, status := status,
            current := t.current, iterations := t.iterations, artifacts := t.artifacts)
  }

  /** What the verdict `v` makes of a loop, in the order in which the controller asks. */
  ghost predicate Outcome(s: LoopView, t: LoopView, v: Verdict, verdicts: seq<Verdict>, now: Instant)
    requires s.current < |s.artifacts|
  {
    var stays := t.current == s.current && t.iterations == s.iterations && t.artifacts == s.artifacts;
    if Spent(s) then stays && Judged(s, t, now, Halted)
    else if ErrorsSpent(s) || PlateauFull(s, verdicts + [v]) || v.status.VerdictError? then stays && Judged(s, t, now, Escalated)
    else if v.status.Verified? then
      t.current == s.current + 1 && t.iterations == s.iterations && t.artifacts == s.artifacts && Judged(s, t, now, Running)
    else if s.artifacts[s.current].createdIds != [] then stays && Judged(s, t, now, Escalated)
    else
      t.current == s.current && t.iterations == s.iterations + 1 && t.artifacts == s.artifacts[..s.current]
      && Judged(s, t, now, Running)
  }

  /** In every run, the verdict on a write that awaits one halts the loop exactly on a spent budget,
      escalates it on spent errors, a full plateau, an error or a mismatch of a step that created records,
      moves on when verified, and otherwise drops the step's artifact and retries it. */
  lemma VerdictOutcome(plan: Plan, s: LoopView, moves: seq<Move>, v: Verdict, now: Instant)
    requires Started(plan, s) && RunLoop(s, moves).status.AwaitingVerification?
    ensures var t := RunLoop(s, moves);
            t.current < |t.plan.steps| && t.current < |t.artifacts| && Outcome(t, Verify(t, v, now), v, Weighed(s, moves), now)
  {
    RunAccounted(plan, s, moves);
    RunTracks(plan, s, moves);
    VerdictOn(RunLoop(s, moves), Weighed(s, moves), v, now);
  }

  lemma VerdictOn(t: LoopView, verdicts: seq<Verdict>, v: Verdict, now: Instant)
    requires Accounted(t) && t.status.AwaitingVerification? && Tracks(t, verdicts)
    ensures Outcome(t, Verify(t, v, now), v, verdicts, now)
  {
    DropOwn(t.artifacts, t.plan, t.current);
    WithoutOwn(t.artifacts, t.plan, t.current);
    DecisionFrame(t, v);
    if !Spent(t) && !ErrorsSpent(t) {
      VerdictTracks(t, verdicts, v);
      if t.plan.verificationPlateau > 0 {
        assert SameMismatch(verdicts + [v], t.plan.verificationPlateau) <==> t.plan.verificationPlateau <= NextPlateau(t, v);
      }
    }
  }

  lemma WithoutOwn(artifacts: seq<Artifact>, plan: Plan, k: nat)
    requires PlanValid(plan) && k < |plan.steps| && ArtifactsOf(artifacts, plan.steps, k + 1)
    ensures Without(artifacts, plan.steps[k].number) == artifacts[..k]
  {
    EarlierArtifacts(artifacts[..k], plan, k);
  }

  /** After the verdict, a loop that runs is driven on, and any other is only saved. */
  lemma VerdictThenDrives(w: World, v: Verdict, tape: seq<Tries>)
    requires w.loop.Some? && w.loop.value.status.AwaitingVerification? && w.loop.value.current < |w.loop.value.plan.steps|
    ensures var t := Verify(w.loop.value, v, w.now);
            VerifyCommand(w, v, tape) == if t.status.Running? then DriveWorld(w, t, tape) else (w.(loop := Some(t)), [])
  {
  }

  // ----- Starting and continuing -----

  /** A running loop untouched for more than two hours is dropped; one up to that old is driven on. A loop
      that is over is dropped at any age. */
  lemma StaleAfterTwoHours(w: World, tape: seq<Tries>)
    requires w.loop.Some?
    ensures var s := w.loop.value;
            var age := Micros(w.now) - Micros(s.updatedAt);
            && (s.status.Running? && age > 7_200_000_000 ==> RunLoopCommand(w, None, tape) == (w.(loop := None), []))
            && (s.status.Running? && age <= 7_200_000_000 ==> RunLoopCommand(w, None, tape) == DriveWorld(w, s, tape))
            && (s.status in {Completed, Failed, Escalated, Halted, OutOfBudget} ==>
                  RunLoopCommand(w, None, tape) == (w.(loop := None), []))
  {
  }

  /** A new plan is driven exactly if it is valid and names every tool, and a finished loop is not kept: the
      state is cleared exactly when its drive completes. */
  lemma FinishedIsCleared(w: World, plan: Plan, tape: seq<Tries>)
    requires w.loop.None?
    ensures var w' := RunLoopCommand(w, Some(plan), tape).0;
            if PlanValid(plan) && forall s <- plan.steps :: s.toolName.Some? then
              var (s', st') := Drive(Fresh(plan, false, w.now), w.store, w.policy, w.now, Padded(tape, |plan.steps|));
              w' == w.(store := st', loop := if s'.status == Completed then None else Some(s'))
            else w' == w
  {
  }

  /** The same of a loop that is driven on. */
  lemma DrivenIsCleared(w: World, s: LoopView, tape: seq<Tries>)
    ensures var (s', st') := Drive(s, w.store, w.policy, w.now, Padded(tape, |s.plan.steps|));
            DriveWorld(w, s, tape) == (w.(store := st', loop := if s'.status == Completed then None else Some(s')), [])
  {
  }

  /** However a drive ends, its time is on record: the two hours count from there. */
  lemma {:induction false} DriveIsDated(s: LoopView, st: Store, policy: ApprovalPolicy, now: Instant, tape: seq<Tries>)
    requires s.current + |tape| >= |s.plan.steps|
    ensures Drive(s, st, policy, now, tape).0.updatedAt == now
    decreases |s.plan.steps| - s.current
  {
    if s.current < |s.plan.steps| {
      var r := DriveStep(s, st, policy, now, tape[0]);
      if r.Go? { DriveIsDated(r.loop, r.store, policy, now, tape[1..]); }
    }
  }
}
