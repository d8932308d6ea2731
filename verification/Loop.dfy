/** The durable loop: its state (src/hubspot_agent/loop_state.py), its controller
    (src/hubspot_agent/loop_controller.py) and the driver that parks at every write
    (src/hubspot_agent/orchestrator.py). */
module Loop {
  import opened Wrappers
  import opened Tools
  import opened Policy
  import opened Cron
  import opened Gate
  import opened Records
  import opened Effects
  import Client

  // ----- Plans -----

  /** A plan step. `needs` are the placeholder keys of its tool input. A prerequisite that is no number
      is `None`. */
  datatype PlanStep = PlanStep(number: int, prerequisites: seq<Option<int>>, needs: set<string>,
                               toolName: Option<string>, artifactKeys: seq<string>)

  datatype Plan = Plan(steps: seq<PlanStep>, maxIterations: int, maxSteps: int, maxApiCalls: int,
                       errorBudget: int, verificationPlateau: int)

  /** The ordering and uniqueness errors of `validate_plan`, by step. */
  predicate StepValid(steps: seq<PlanStep>, i: nat)
    requires i < |steps|
  {
    && (forall j :: 0 <= j < i ==> steps[j].number != steps[i].number)
    && forall p <- steps[i].prerequisites ::
         p.Some? && exists j :: 0 <= j <= i && steps[j].number == p.value
  }

  predicate PlanValid(plan: Plan) {
    plan.steps != [] && forall i :: 0 <= i < |plan.steps| ==> StepValid(plan.steps, i)
  }

  method ValidatePlan(plan: Plan) returns (errors: nat)
    ensures errors == 0 <==> PlanValid(plan)
  {
    errors := if plan.steps == [] then 1 else 0;
    var seen: set<int> := {};
    for i := 0 to |plan.steps|
      invariant seen == set j | 0 <= j < i :: plan.steps[j].number
      invariant errors == 0 <==> plan.steps != [] && forall j :: 0 <= j < i ==> StepValid(plan.steps, j)
    {
      var step := plan.steps[i];
      ghost var clean := errors == 0;
      var isNew := step.number !in seen;
      assert isNew <==> forall j :: 0 <= j < i ==> plan.steps[j].number != step.number;
      if !isNew { errors := errors + 1; }
      seen := seen + {step.number};
      for k := 0 to |step.prerequisites|
        invariant errors == 0 <==> clean && isNew && forall m :: 0 <= m < k ==>
          step.prerequisites[m].Some? && step.prerequisites[m].value in seen
      {
        var p := step.prerequisites[k];
        if p.None? || p.value !in seen { errors := errors + 1; }
      }
      assert forall m :: 0 <= m < |step.prerequisites| ==> step.prerequisites[m] in step.prerequisites;
      assert StepValid(plan.steps, i) <==> isNew && forall p <- step.prerequisites :: p.Some? && p.value in seen;
    }
  }

  /** Every step names its tool: nothing is left to free-text dispatch. */
  predicate Concrete(plan: Plan) {
    forall s <- plan.steps :: s.toolName.Some?
  }

  // ----- Loop state -----

  type Outputs = map<string, seq<string>>

  datatype Artifact = Artifact(step: int, outputs: Outputs, createdIds: seq<string>)

  datatype VerdictStatus = Verified | Mismatch | Partial | VerdictError

  /** A verification result, as far as the controller's fingerprint sees it. */
  datatype Verdict = Verdict(status: VerdictStatus, mismatches: string, missing: multiset<string>, message: Option<string>)

  datatype Status = Running | AwaitingApproval | AwaitingVerification
                  | Completed | Failed | Escalated | Halted | OutOfBudget

  /** `completed`, `failed`, `escalate`, `stop`, `stopped` */
  predicate Terminal(s: Status) {
    s.Completed? || s.Failed? || s.Escalated? || s.Halted? || s.OutOfBudget?
  }

  datatype LoopView = LoopView(
    plan: Plan, scheduled: bool, current: nat, artifacts: seq<Artifact>, status: Status, iterations: nat,
    lastError: Option<string>, lastHash: Option<Verdict>, plateau: nat, pendingId: Option<ActionId>,
    stepCount: nat, apiCalls: nat, staged: seq<ActionId>, updatedAt: Instant)

  function Fresh(plan: Plan, scheduled: bool, now: Instant): LoopView {
    LoopView(plan, scheduled, 0, [], Running, 0, None, None, 0, None, 0, 0, [], now)
  }

  // ----- The controller -----

  datatype Action = Proceed | Retry | Escalate | Stop

  /** The fingerprint of a mismatch, or `None` when verified. */
  function Hash(v: Verdict): Option<Verdict> {
    if v.status.Verified? then None else Some(v)
  }

  function NextPlateau(s: LoopView, v: Verdict): nat {
    var h := Hash(v);
    if h.Some? && h == s.lastHash then s.plateau + 1 else if h.Some? then 1 else 0
  }

  /** A final decision that is taken before the verdict is looked at. */
  predicate BudgetStops(s: LoopView) {
    || s.iterations >= s.plan.maxIterations
    || s.stepCount >= s.plan.maxSteps
    || s.apiCalls >= s.plan.maxApiCalls
    || (s.lastError.Some? && s.lastError.value != "" && s.iterations >= s.plan.errorBudget)
  }

  function Decision(s: LoopView, v: Verdict): (Action, LoopView) {
    if s.iterations >= s.plan.maxIterations || s.stepCount >= s.plan.maxSteps || s.apiCalls >= s.plan.maxApiCalls
    then (Stop, s)
    else if BudgetStops(s) then (Escalate, s)
    else
      var s' := s.(plateau := NextPlateau(s, v), lastHash := Hash(v));
      if s'.plateau >= s.plan.verificationPlateau then (Escalate, s')
      else match v.status
        case Verified => (Proceed, s')
        case Mismatch => (Retry, s')
        case Partial => (Retry, s')
        case VerdictError => (Escalate, s')
  }

  // ----- Driving -----

  /** What a tool call comes to, as far as the world decides it: refused, or the call itself with what
      it would return as a read, the pre-images its preview captures as a write, and what the tool
      would meet if it were invoked at once. */
  datatype ToolOutcome = Refused(error: string)
                       | Fine(call: Call, result: ToolResult, originals: map<RecordId, Values>, io: ExecIo)

  /** What a read returns: a list of records or anything else, with the ids that they carry ("" for none). */
  datatype ToolResult = Listing(text: string, ids: seq<string>) | Whole(text: string, id: string)

  /** The first id, or "". */
  function FirstId(ids: seq<string>): string {
    if ids == [] then "" else if ids[0] != "" then ids[0] else FirstId(ids[1..])
  }

  /** `_capture_tool_artifact`: the result, and the first id also under the step's first artifact key. */
  function ReadArtifact(step: PlanStep, result: ToolResult): Artifact {
    var id := if result.Listing? then FirstId(result.ids) else result.id;
    var outputs: Outputs := map["result" := [result.text]];
    Artifact(step.number, if id != "" && step.artifactKeys != [] then outputs[step.artifactKeys[0] := [id]] else outputs, [])
  }

  /** The write that the call would be staged as. */
  function WriteIn(outcome: ToolOutcome): Write
    requires outcome.Fine?
  {
    WriteOf(outcome.call, outcome.originals)
  }

  /** `handle_tool`'s response. */
  datatype ToolReply = Refusal(error: string) | ReadDone(result: ToolResult) | Previewed(id: ActionId) | AppliedNow(id: ActionId)

  /** The attempts a step's retry wrapper may see: at least as many as its budget. */
  type Tries = a: seq<Client.Attempt<ToolOutcome>> | |a| >= Client.READ_RETRY_BUDGET
    witness seq(Client.READ_RETRY_BUDGET, _ => Client.Raised("", false, None))

  /** The artifact a prerequisite number resolves to: the last one of that number. */
  function ArtifactOf(artifacts: seq<Artifact>, number: int): Option<Artifact> {
    if artifacts == [] then None
    else
      var n := |artifacts| - 1;
      if artifacts[n].step == number then Some(artifacts[n]) else ArtifactOf(artifacts[..n], number)
  }

  /** `next((a for a in artifacts if a.step_number == number), None)` */
  function FirstArtifact(artifacts: seq<Artifact>, number: int): Option<Artifact> {
    if artifacts == [] then None
    else if artifacts[0].step == number then Some(artifacts[0])
    else FirstArtifact(artifacts[1..], number)
  }

  /** `_resolve_artifacts`: the merged outputs of the prerequisites, later ones winning. */
  function Resolved(prerequisites: seq<Option<int>>, artifacts: seq<Artifact>): Outputs {
    if prerequisites == [] then map[]
    else
      var n := |prerequisites| - 1;
      var before := Resolved(prerequisites[..n], artifacts);
      var p := prerequisites[n];
      if p.None? || ArtifactOf(artifacts, p.value).None? then before
      else before + ArtifactOf(artifacts, p.value).value.outputs
  }

  datatype Stepped = Halt(loop: LoopView, store: Store) | Go(loop: LoopView, store: Store)

  predicate OverBudget(s: LoopView) {
    s.stepCount >= s.plan.maxSteps || s.apiCalls >= s.plan.maxApiCalls
  }

  /** A step that may not call its tool, or the counted state and the step that does. */
  datatype Prepared = Blocked(loop: LoopView) | Ready(loop: LoopView, step: PlanStep)

  /** The loop body up to the tool call: the budget, the count, the refusals. */
  function Prepare(s: LoopView): Prepared
    requires s.current < |s.plan.steps|
  {
    var step := s.plan.steps[s.current];
    if OverBudget(s) then
      Blocked(s.(status := OutOfBudget,
                 lastError := Some(if s.stepCount >= s.plan.maxSteps then "budget exhausted: max_steps"
                                   else "budget exhausted: max_api_calls")))
    else
      var c := s.(stepCount := s.stepCount + 1, apiCalls := s.apiCalls + 1);
      if s.scheduled && step.toolName.None? then Blocked(c.(status := Failed, lastError := Some("not concrete")))
      else if !(step.needs <= Resolved(step.prerequisites, s.artifacts).Keys)
      then Blocked(c.(status := Failed, lastError := Some("unresolvable placeholder")))
      else Ready(c, step)
  }

  /** What the reply makes of the loop, and whether it goes on: fail, stage or park at a preview; any
      other response is taken for a finished read. */
  function Absorb(c: LoopView, step: PlanStep, reply: ToolReply): (LoopView, bool) {
    match reply
    case Refusal(error) => (c.(status := Failed, lastError := Some(error)), false)
    case Previewed(id) =>
      if c.scheduled then (c.(staged := c.staged + [id], current := c.current + 1), true)
      else (c.(pendingId := Some(id), status := AwaitingApproval), false)
    case ReadDone(result) =>
      (c.(artifacts := c.artifacts + [ReadArtifact(step, result)], current := c.current + 1), true)
    case AppliedNow(_) =>
      (c.(artifacts := c.artifacts + [Artifact(step.number, map[], [])], current := c.current + 1), true)
  }

  // The loop as it is safe to think of it: a write step only stages. `Engine.DriveOn` sends every step
  // through `handle_tool`, which could also execute, and is proved to come to this.

  /** What a loop step's tool call does to the pending store, and its reply. */
  function Staging(st: Store, policy: ApprovalPolicy, now: Instant, step: PlanStep,
                   settled: Client.Attempt<ToolOutcome>): (Store, ToolReply) {
    match settled
    case Raised(error, _, _) => (st, Refusal(error))
    case Success(outcome) =>
      match outcome
      case Refused(error) => (st, Refusal(error))
      case Fine(call, result, _, _) =>
        if !WellShaped(WriteIn(outcome)) then (st, Refusal("validation"))
        else if !IsWrite(call) then (st, ReadDone(result))
        else (Put(st, Staged(WriteIn(outcome), policy, false, Some(step.number), now)), Previewed(st.nextId))
  }

  function AfterTool(c: LoopView, st: Store, policy: ApprovalPolicy, now: Instant, step: PlanStep,
                     settled: Client.Attempt<ToolOutcome>): Stepped {
    var (st', reply) := Staging(st, policy, now, step, settled);
    var (c', go) := Absorb(c, step, reply);
    if go then Go(c', st') else Halt(c', st')
  }

  /** One pass of the driver's loop body. */
  function DriveStep(s: LoopView, st: Store, policy: ApprovalPolicy, now: Instant, tries: Tries): Stepped
    requires s.current < |s.plan.steps|
  {
    match Prepare(s)
    case Blocked(s') => Halt(s', st)
    case Ready(c, step) => AfterTool(c, st, policy, now, step, Client.Settled(tries))
  }

  /** `_drive_loop`: from the current step to a write pause, a failure, the budget or the end. */
  function Drive(s: LoopView, st: Store, policy: ApprovalPolicy, now: Instant, tape: seq<Tries>): (LoopView, Store)
    requires s.current + |tape| >= |s.plan.steps|
    decreases |s.plan.steps| - s.current
  {
    if s.current >= |s.plan.steps| then (s.(status := Completed, updatedAt := now), st)
    else match DriveStep(s, st, policy, now, tape[0])
      case Halt(s', st') => (s'.(updatedAt := now), st')
      case Go(s', st') => Drive(s', st', policy, now, tape[1..])
  }

  // ----- Resuming and verifying -----

  datatype AuditEntry = Approved(id: ActionId) | ApprovedRecord(id: ActionId, record: string) | UndoneAction(id: ActionId)

  const AUDIT_DEPTH := 200

  function Recent(audit: seq<AuditEntry>): seq<AuditEntry> {
    if |audit| <= AUDIT_DEPTH then audit else audit[|audit| - AUDIT_DEPTH..]
  }

  /** `[a for a in artifacts if a.step_number != number]` */
  function Without(artifacts: seq<Artifact>, number: int): seq<Artifact> {
    if artifacts == [] then []
    else
      var n := |artifacts| - 1;
      Without(artifacts[..n], number) + if artifacts[n].step != number then [artifacts[n]] else []
  }

  /** `_artifact_from_snapshot`: the created ids, the first also under the step's first artifact key. */
  function WriteArtifact(step: PlanStep, createdIds: seq<string>): Artifact {
    var outputs: Outputs :=
      if createdIds == [] then map[]
      else if step.artifactKeys == [] then map["created_ids" := createdIds]
      else map["created_ids" := createdIds][step.artifactKeys[0] := [createdIds[0]]];
    Artifact(step.number, outputs, createdIds)
  }

  /** `_resume_awaiting_approval`: still pending, executed, or gone. */
  function Resume(s: LoopView, st: Store, audit: seq<AuditEntry>, createdIds: seq<string>, now: Instant): LoopView
    requires s.current < |s.plan.steps|
  {
    var step := s.plan.steps[s.current];
    if s.pendingId.Some? && s.pendingId.value in st.entries then s
    else if s.pendingId.Some? && Approved(s.pendingId.value) in Recent(audit) then
      s.(artifacts := Without(s.artifacts, step.number) + [WriteArtifact(step, createdIds)],
         status := AwaitingVerification, updatedAt := now)
    else s.(status := Halted, updatedAt := now)
  }

  /** `loop_verify` up to the point where it drives on, if it does. */
  function Verify(s: LoopView, v: Verdict, now: Instant): LoopView
    requires s.current < |s.plan.steps|
  {
    var number := s.plan.steps[s.current].number;
    var (action, s') := Decision(s, v);
    var t := s'.(pendingId := None, updatedAt := now);
    match action
    case Proceed => t.(current := s.current + 1, status := Running)
    case Retry =>
      var own := FirstArtifact(s.artifacts, number);
      if own.Some? && own.value.createdIds != [] then t.(status := Escalated)
      else t.(iterations := s.iterations + 1, artifacts := Without(s.artifacts, number), status := Running)
    case Escalate => t.(status := Escalated)
    case Stop => t.(status := Halted)
  }

  // ----- The same, as the source runs it: objects updated in place -----

  class LoopState {
    const plan: Plan
    const scheduled: bool
    var currentStep: nat
    var artifacts: seq<Artifact>
    var status: Status
    var iterations: nat
    var lastError: Option<string>
    var lastVerificationHash: Option<Verdict>
    var plateauCount: nat
    var pendingActionId: Option<ActionId>
    var stepCount: nat
    var apiCallCount: nat
    var stagedActionIds: seq<ActionId>
    var updatedAt: Instant

    function View(): LoopView
      reads this
    {
      LoopView(plan, scheduled, currentStep, artifacts, status, iterations, lastError, lastVerificationHash,
               plateauCount, pendingActionId, stepCount, apiCallCount, stagedActionIds, updatedAt)
    }

    constructor (plan: Plan, scheduled: bool, now: Instant)
      ensures View() == Fresh(plan, scheduled, now)
    {
      this.plan, this.scheduled := plan, scheduled;
      currentStep, artifacts, status, iterations := 0, [], Running, 0;
      lastError, lastVerificationHash, plateauCount, pendingActionId := None, None, 0, None;
      stepCount, apiCallCount, stagedActionIds, updatedAt := 0, 0, [], now;
    }

    /** A loop resumed from its stored state. */
    constructor Load(s: LoopView)
      ensures View() == s
    {
      plan, scheduled := s.plan, s.scheduled;
      currentStep, artifacts, status, iterations := s.current, s.artifacts, s.status, s.iterations;
      lastError, lastVerificationHash, plateauCount, pendingActionId := s.lastError, s.lastHash, s.plateau, s.pendingId;
      stepCount, apiCallCount, stagedActionIds, updatedAt := s.stepCount, s.apiCalls, s.staged, s.updatedAt;
    }
  }

  /** `LoopController.next_action` on the plan's own limits. */
  method NextAction(state: LoopState, v: Verdict) returns (action: Action)
    modifies state
    ensures (action, state.View()) == Decision(old(state.View()), v)
  {
    if state.iterations >= state.plan.maxIterations { return Stop; }
    if state.stepCount >= state.plan.maxSteps { return Stop; }
    if state.apiCallCount >= state.plan.maxApiCalls { return Stop; }
    if state.lastError.Some? && state.lastError.value != "" && state.iterations >= state.plan.errorBudget {
      return Escalate;
    }
    var mismatchHash := Hash(v);
    if mismatchHash.Some? && mismatchHash == state.lastVerificationHash {
      state.plateauCount := state.plateauCount + 1;
    } else {
      state.plateauCount := if mismatchHash.Some? then 1 else 0;
    }
    state.lastVerificationHash := mismatchHash;
    if state.plateauCount >= state.plan.verificationPlateau { return Escalate; }
    match v.status {
      case Verified => return Proceed;
      case Mismatch => return Retry;
      case Partial => return Retry;
      case VerdictError => return Escalate;
    }
  }

  /** `_resolve_artifacts`: the merged dictionary, built prerequisite by prerequisite. */
  method ResolveArtifacts(step: PlanStep, artifacts: seq<Artifact>) returns (resolved: Outputs)
    ensures resolved == Resolved(step.prerequisites, artifacts)
  {
    resolved := map[];
    for i := 0 to |step.prerequisites|
      invariant resolved == Resolved(step.prerequisites[..i], artifacts)
    {
      assert step.prerequisites[..i + 1][..i] == step.prerequisites[..i];
      var p := step.prerequisites[i];
      if p.Some? {
        var artifact := ArtifactOf(artifacts, p.value);
        if artifact.Some? {
          resolved := resolved + artifact.value.outputs;
        }
      }
    }
    assert step.prerequisites[..|step.prerequisites|] == step.prerequisites;
  }

  /** The loop body up to the tool call; `ready` says whether the call is made. */
  method PrepareStep(state: LoopState) returns (ready: bool)
    requires state.currentStep < |state.plan.steps|
    modifies state
    ensures Prepare(old(state.View())) ==
      if ready then Ready(state.View(), state.plan.steps[old(state.currentStep)]) else Blocked(state.View())
    ensures ready ==> state.currentStep == old(state.currentStep)
  {
    var plan := state.plan;
    if state.stepCount >= plan.maxSteps || state.apiCallCount >= plan.maxApiCalls {
      state.lastError := Some(if state.stepCount >= plan.maxSteps then "budget exhausted: max_steps"
                              else "budget exhausted: max_api_calls");
      state.status := OutOfBudget;
      return false;
    }
    var step := plan.steps[state.currentStep];
    state.stepCount := state.stepCount + 1;
    state.apiCallCount := state.apiCallCount + 1;
    var resolved := ResolveArtifacts(step, state.artifacts);
    if state.scheduled && step.toolName.None? {
      state.status, state.lastError := Failed, Some("not concrete");
      return false;
    }
    if !(step.needs <= resolved.Keys) {
      state.status, state.lastError := Failed, Some("unresolvable placeholder");
      return false;
    }
    ready := true;
  }

  /** `_capture_tool_artifact` */
  method CaptureToolArtifact(result: ToolResult, step: PlanStep) returns (artifact: Artifact)
    ensures artifact == ReadArtifact(step, result)
  {
    var outputs: Outputs := map["result" := [result.text]];
    var firstId := "";
    if result.Listing? {
      var i := 0;
      while i < |result.ids| && firstId == ""
        invariant 0 <= i <= |result.ids|
        invariant FirstId(result.ids) == if firstId != "" then firstId else FirstId(result.ids[i..])
      {
        if result.ids[i] != "" { firstId := result.ids[i]; }
        i := i + 1;
      }
    } else {
      firstId := result.id;
    }
    if firstId != "" && step.artifactKeys != [] {
      outputs := outputs[step.artifactKeys[0] := [firstId]];
    }
    artifact := Artifact(step.number, outputs, []);
  }

  /** What the driver does with the tool's reply; `go` says whether it carries on. */
  method AbsorbReply(state: LoopState, step: PlanStep, reply: ToolReply) returns (go: bool)
    modifies state
    ensures (state.View(), go) == Absorb(old(state.View()), step, reply)
  {
    match reply {
      case Refusal(error) =>
        state.status, state.lastError := Failed, Some(error);
        return false;
      case Previewed(id) =>
        if state.scheduled {
          state.stagedActionIds := state.stagedActionIds + [id];
          state.currentStep := state.currentStep + 1;
          return true;
        }
        state.pendingActionId, state.status := Some(id), AwaitingApproval;
        return false;
      case ReadDone(result) =>
        var artifact := CaptureToolArtifact(result, step);
        state.artifacts := state.artifacts + [artifact];
        state.currentStep := state.currentStep + 1;
        return true;
      case AppliedNow(_) =>
        state.artifacts := state.artifacts + [Artifact(step.number, map[], [])];
        state.currentStep := state.currentStep + 1;
        return true;
    }
  }

  method ResumeAwaitingApproval(state: LoopState, store: PendingStore, auditLog: seq<AuditEntry>,
                                createdIds: seq<string>, now: Instant)
    requires state.currentStep < |state.plan.steps|
    modifies state
    ensures state.View() == Resume(old(state.View()), store.View(), auditLog, createdIds, now)
  {
    var step := state.plan.steps[state.currentStep];
    var id := state.pendingActionId;
    if id.Some? && id.value in store.entries {
      return;
    }
    var recent := Recent(auditLog);
    var approved := id.Some? && exists a <- recent :: a == Approved(id.value);
    if approved {
      state.artifacts := Without(state.artifacts, step.number) + [WriteArtifact(step, createdIds)];
      state.status := AwaitingVerification;
    } else {
      state.status := Halted;
    }
    state.updatedAt := now;
  }

  /** `loop_verify` on a loop that awaits a verdict. */
  method LoopVerify(state: LoopState, v: Verdict, now: Instant) returns (drives: bool)
    requires state.currentStep < |state.plan.steps|
    modifies state
    ensures state.View() == Verify(old(state.View()), v, now)
    ensures drives <==> state.status.Running?
  {
    var step := state.plan.steps[state.currentStep];
    var action := NextAction(state, v);
    state.pendingActionId, state.updatedAt := None, now;
    if action.Proceed? {
      state.currentStep := state.currentStep + 1;
      state.status := Running;
      return true;
    }
    if action.Retry? {
      var own := FirstArtifact(state.artifacts, step.number);
      if own.Some? && own.value.createdIds != [] {
        state.status := Escalated;
        return false;
      }
      state.iterations := state.iterations + 1;
      state.artifacts := Without(state.artifacts, step.number);
      state.status := Running;
      return true;
    }
    state.status := if action.Escalate? then Escalated else Halted;
    return false;
  }
}
