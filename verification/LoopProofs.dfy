/** What every run of the durable loop keeps, whatever tools, approvals and verdicts do to it. */
module LoopProofs {
  import opened Wrappers
  import opened Tools
  import opened Policy
  import opened Cron
  import opened Gate
  import opened Loop
  import Client

  // ----- Accounting -----

  /** The artifacts are those of the first `n` steps, in order. */
  ghost predicate ArtifactsOf(artifacts: seq<Artifact>, steps: seq<PlanStep>, n: nat) {
    && |artifacts| == n <= |steps|
    && forall i :: 0 <= i < n ==> artifacts[i].step == steps[i].number
  }

  /** No counter has passed its limit (a counter that never moved passes none). */
  ghost predicate WithinLimits(s: LoopView) {
    && (s.stepCount > 0 ==> s.stepCount <= s.plan.maxSteps && s.apiCalls <= s.plan.maxApiCalls)
    && (s.iterations > 0 ==> s.iterations <= s.plan.maxIterations)
  }

  /** The exact accounting of an interactive loop, status by status. */
  ghost predicate Accounted(s: LoopView) {
    && !s.scheduled && PlanValid(s.plan) && s.current <= |s.plan.steps|
    && s.apiCalls == s.stepCount && WithinLimits(s)
    && match s.status
       case Running =>
         ArtifactsOf(s.artifacts, s.plan.steps, s.current) && s.stepCount == s.current + s.iterations
       case Completed =>
         && s.current == |s.plan.steps|
         && ArtifactsOf(s.artifacts, s.plan.steps, s.current) && s.stepCount == s.current + s.iterations
       case AwaitingApproval =>
         && s.current < |s.plan.steps| && s.pendingId.Some?
         && ArtifactsOf(s.artifacts, s.plan.steps, s.current) && s.stepCount == s.current + s.iterations + 1
       case AwaitingVerification =>
         && s.current < |s.plan.steps| && s.pendingId.Some?
         && ArtifactsOf(s.artifacts, s.plan.steps, s.current + 1) && s.stepCount == s.current + s.iterations + 1
       case OutOfBudget =>
         && s.current < |s.plan.steps| && OverBudget(s)
         && ArtifactsOf(s.artifacts, s.plan.steps, s.current) && s.stepCount == s.current + s.iterations
       case _ =>
         s.current < |s.plan.steps| && s.stepCount == s.current + s.iterations + 1
  }

  lemma DriveStepAccounted(s: LoopView, st: Store, policy: ApprovalPolicy, now: Instant, tries: Tries)
    requires Accounted(s) && s.status.Running? && s.current < |s.plan.steps|
    ensures var r := DriveStep(s, st, policy, now, tries);
            && Accounted(r.loop)
            && (r.Go? ==> r.loop.status.Running? && r.loop.current == s.current + 1)
            && (r.Halt? ==> !r.loop.status.Running? && !r.loop.status.AwaitingVerification? && r.loop.current == s.current)
  {
  }

  /** Driving keeps the accounts and always ends parked, failed, out of budget or completed. */
  lemma {:induction false} DriveAccounted(s: LoopView, st: Store, policy: ApprovalPolicy, now: Instant, tape: seq<Tries>)
    requires Accounted(s) && s.status.Running? && s.current + |tape| >= |s.plan.steps|
    ensures var s' := Drive(s, st, policy, now, tape).0;
            && Accounted(s') && s'.current >= s.current && s'.iterations == s.iterations && s'.plan == s.plan
            && !s'.status.Running? && !s'.status.AwaitingVerification?
            && s'.stepCount >= s.stepCount + (if s'.status.AwaitingApproval? then 1 else 0)
            && (s'.lastHash, s'.plateau) == (s.lastHash, s.plateau)
    decreases |s.plan.steps| - s.current
  {
    if s.current < |s.plan.steps| {
      DriveStepAccounted(s, st, policy, now, tape[0]);
      var r := DriveStep(s, st, policy, now, tape[0]);
      if r.Go? { DriveAccounted(r.loop, r.store, policy, now, tape[1..]); }
    }
  }

  ghost predicate NoneOf(artifacts: seq<Artifact>, number: int) {
    forall i :: 0 <= i < |artifacts| ==> artifacts[i].step != number
  }

  lemma {:induction false} WithoutAbsent(artifacts: seq<Artifact>, number: int)
    requires NoneOf(artifacts, number)
    ensures Without(artifacts, number) == artifacts
    decreases |artifacts|
  {
    if artifacts != [] {
      var n := |artifacts| - 1;
      WithoutAbsent(artifacts[..n], number);
      assert artifacts == artifacts[..n] + [artifacts[n]];
    }
  }

  lemma ArtifactsMore(artifacts: seq<Artifact>, steps: seq<PlanStep>, n: nat, a: Artifact)
    requires ArtifactsOf(artifacts, steps, n) && n < |steps| && a.step == steps[n].number
    ensures ArtifactsOf(artifacts + [a], steps, n + 1)
  {
  }

  /** With unique step numbers, the artifacts of earlier steps are not those of step `k`. */
  lemma EarlierArtifacts(artifacts: seq<Artifact>, plan: Plan, k: nat)
    requires PlanValid(plan) && k < |plan.steps| && ArtifactsOf(artifacts, plan.steps, k)
    ensures NoneOf(artifacts, plan.steps[k].number)
    ensures Without(artifacts, plan.steps[k].number) == artifacts
  {
    assert StepValid(plan.steps, k);
    forall i | 0 <= i < |artifacts|
      ensures artifacts[i].step != plan.steps[k].number
    {
      assert plan.steps[i].number != plan.steps[k].number;
    }
    WithoutAbsent(artifacts, plan.steps[k].number);
  }

  /** A plan without steps is refused, and so is a prerequisite that is no number. */
  lemma EmptyAndUnreadableAreRefused(plan: Plan, i: nat)
    ensures plan.steps == [] ==> !PlanValid(plan)
    ensures i < |plan.steps| && None in plan.steps[i].prerequisites ==> !PlanValid(plan)
  {
    if i < |plan.steps| && PlanValid(plan) { assert StepValid(plan.steps, i); }
  }

  /** A plan may name a step as its own prerequisite. */
  lemma OwnPrerequisiteIsAccepted(plan: Plan)
    requires |plan.steps| == 1 && plan.steps[0].prerequisites == [Some(plan.steps[0].number)]
    ensures PlanValid(plan)
  {
  }

  /** Dropping the step's own artifact leaves exactly the earlier ones. */
  lemma DropOwn(artifacts: seq<Artifact>, plan: Plan, k: nat)
    requires PlanValid(plan) && k < |plan.steps| && ArtifactsOf(artifacts, plan.steps, k + 1)
    ensures ArtifactsOf(Without(artifacts, plan.steps[k].number), plan.steps, k)
    ensures FirstArtifact(artifacts, plan.steps[k].number) == Some(artifacts[k])
  {
    var before := artifacts[..k];
    EarlierArtifacts(before, plan, k);
    assert Without(artifacts, plan.steps[k].number) == before;
    forall i | 0 <= i < k
      ensures artifacts[i].step != plan.steps[k].number
    {
      assert before[i] == artifacts[i];
    }
    FirstAfter(artifacts, plan.steps[k].number, k);
  }

  /** What the controller may change: its two fields. */
  lemma DecisionFrame(s: LoopView, v: Verdict)
    ensures var (action, s') := Decision(s, v);
            && s' == s.(lastHash := s'.lastHash, plateau := s'.plateau)
            && (action != Stop ==> s.iterations < s.plan.maxIterations)
  {
  }

  lemma {:induction false} FirstAfter(artifacts: seq<Artifact>, number: int, k: nat)
    requires k < |artifacts| && artifacts[k].step == number
    requires forall i :: 0 <= i < k ==> artifacts[i].step != number
    ensures FirstArtifact(artifacts, number) == Some(artifacts[k])
    decreases k
  {
    if k > 0 { FirstAfter(artifacts[1..], number, k - 1); }
  }

  /** With unique numbers, looking an artifact up by its step finds that step's own, first or last. */
  lemma {:induction false} ArtifactByNumber(artifacts: seq<Artifact>, plan: Plan, n: nat, k: nat)
    requires PlanValid(plan) && k < n && ArtifactsOf(artifacts, plan.steps, n)
    ensures ArtifactOf(artifacts, plan.steps[k].number) == Some(artifacts[k])
    ensures FirstArtifact(artifacts, plan.steps[k].number) == Some(artifacts[k])
    decreases n
  {
    EarlierArtifacts(artifacts[..k], plan, k);
    forall i | 0 <= i < k
      ensures artifacts[i].step != plan.steps[k].number
    {
      assert artifacts[..k][i] == artifacts[i];
    }
    FirstAfter(artifacts, plan.steps[k].number, k);
    if k < n - 1 {
      assert StepValid(plan.steps, n - 1);
      ArtifactByNumber(artifacts[..n - 1], plan, n - 1, k);
    }
  }

  /** The prerequisite has an artifact that supplies the key. */
  predicate Supplies(prerequisite: Option<int>, artifacts: seq<Artifact>, key: string) {
    prerequisite.Some? && match ArtifactOf(artifacts, prerequisite.value)
      case None => false
      case Some(a) => key in a.outputs
  }

  /** A placeholder resolves exactly if some prerequisite supplies it, and to the last one's value. */
  lemma {:induction false} ResolvedByLast(prerequisites: seq<Option<int>>, artifacts: seq<Artifact>, key: string)
    ensures key in Resolved(prerequisites, artifacts) <==>
              exists i :: 0 <= i < |prerequisites| && Supplies(prerequisites[i], artifacts, key)
    ensures forall i :: 0 <= i < |prerequisites| && Supplies(prerequisites[i], artifacts, key)
                        && (forall j :: i < j < |prerequisites| ==> !Supplies(prerequisites[j], artifacts, key)) ==>
              key in Resolved(prerequisites, artifacts)
              && Resolved(prerequisites, artifacts)[key] == ArtifactOf(artifacts, prerequisites[i].value).value.outputs[key]
    decreases |prerequisites|
  {
    if prerequisites != [] {
      var n := |prerequisites| - 1;
      var before := prerequisites[..n];
      ResolvedByLast(before, artifacts, key);
      assert forall i :: 0 <= i < n ==> before[i] == prerequisites[i];
      if Supplies(prerequisites[n], artifacts, key) {
        assert Resolved(prerequisites, artifacts)[key] == ArtifactOf(artifacts, prerequisites[n].value).value.outputs[key];
      } else {
        assert key in Resolved(prerequisites, artifacts) <==> key in Resolved(before, artifacts);
      }
    }
  }

  lemma ResumeAccounted(s: LoopView, st: Store, audit: seq<AuditEntry>, createdIds: seq<string>, now: Instant)
    requires Accounted(s) && s.status.AwaitingApproval?
    ensures Accounted(Resume(s, st, audit, createdIds, now))
  {
    EarlierArtifacts(s.artifacts, s.plan, s.current);
    var step := s.plan.steps[s.current];
    ArtifactsMore(s.artifacts, s.plan.steps, s.current, WriteArtifact(step, createdIds));
  }

  lemma VerifyAccounted(s: LoopView, v: Verdict, now: Instant)
    requires Accounted(s) && s.status.AwaitingVerification?
    ensures Accounted(Verify(s, v, now))
  {
    DropOwn(s.artifacts, s.plan, s.current);
    DecisionFrame(s, v);
  }

  // ----- Runs of one loop, in any environment -----

  /** One command on a loop: `loop continue` or `loop verify`, with whatever the pending store, the
      audit log, the snapshot and the tools hold at that moment. */
  datatype Move =
    | Continue(store: Store, audit: seq<AuditEntry>, createdIds: seq<string>, policy: ApprovalPolicy, now: Instant, tape: seq<Tries>)
    | Judge(verdict: Verdict, store: Store, policy: ApprovalPolicy, now: Instant, tape: seq<Tries>)

  const DEAD_CALL: Tries := seq(Client.READ_RETRY_BUDGET, _ => Client.Raised("no reply", false, None))

  /** A tape that runs out reads as failing calls. */
  function Padded(tape: seq<Tries>, n: nat): (r: seq<Tries>)
    ensures |r| >= n
  {
    if |tape| >= n then tape else tape + seq(n - |tape|, _ => DEAD_CALL)
  }

  function Driven(s: LoopView, store: Store, policy: ApprovalPolicy, now: Instant, tape: seq<Tries>): LoopView {
    Drive(s, store, policy, now, Padded(tape, |s.plan.steps|)).0
  }

  lemma DrivenAccounted(s: LoopView, store: Store, policy: ApprovalPolicy, now: Instant, tape: seq<Tries>)
    requires Accounted(s) && s.status.Running?
    ensures var t := Driven(s, store, policy, now, tape);
            && Accounted(t) && t.plan == s.plan && t.current >= s.current && t.stepCount >= s.stepCount
            && (t.lastHash, t.plateau) == (s.lastHash, s.plateau)
  {
    DriveAccounted(s, store, policy, now, Padded(tape, |s.plan.steps|));
  }

  function After(s: LoopView, m: Move): LoopView {
    match m
    case Continue(store, audit, createdIds, policy, now, tape) =>
      if s.status.AwaitingApproval? && s.current < |s.plan.steps| then Resume(s, store, audit, createdIds, now)
      else if s.status.Running? then Driven(s, store, policy, now, tape)
      else s
    case Judge(v, store, policy, now, tape) =>
      if !s.status.AwaitingVerification? || s.current >= |s.plan.steps| then s
      else
        var s' := Verify(s, v, now);
        if s'.status.Running? then Driven(s', store, policy, now, tape) else s'
  }

  function RunLoop(s: LoopView, moves: seq<Move>): LoopView {
    if moves == [] then s else After(RunLoop(s, moves[..|moves| - 1]), moves[|moves| - 1])
  }

  /** A run from `loop start`: the plan passed validation, and the first drive has been made. */
  ghost predicate Started(plan: Plan, s: LoopView) {
    PlanValid(plan) && exists store, policy, now, tape :: s == Driven(Fresh(plan, false, now), store, policy, now, tape)
  }

  lemma StartAccounted(plan: Plan, s: LoopView)
    requires Started(plan, s)
    ensures Accounted(s) && s.plan == plan && s.lastHash == None && s.plateau == 0
  {
    var store, policy, now, tape :| s == Driven(Fresh(plan, false, now), store, policy, now, tape);
    DrivenAccounted(Fresh(plan, false, now), store, policy, now, tape);
  }

  lemma JudgedAccounted(s: LoopView, v: Verdict, store: Store, policy: ApprovalPolicy, now: Instant, tape: seq<Tries>)
    requires Accounted(s) && s.status.AwaitingVerification?
    ensures var s' := Verify(s, v, now);
            s'.status.Running? ==> Accounted(Driven(s', store, policy, now, tape)) && Driven(s', store, policy, now, tape).plan == s.plan
  {
    VerifyAccounted(s, v, now);
    var s' := Verify(s, v, now);
    if s'.status.Running? { DrivenAccounted(s', store, policy, now, tape); }
  }

  lemma AfterAccounted(s: LoopView, m: Move)
    requires Accounted(s)
    ensures Accounted(After(s, m)) && After(s, m).plan == s.plan
  {
    match m
    case Continue(store, audit, createdIds, policy, now, tape) =>
      if s.status.AwaitingApproval? { ResumeAccounted(s, store, audit, createdIds, now); }
      else if s.status.Running? { DrivenAccounted(s, store, policy, now, tape); }
    case Judge(v, store, policy, now, tape) =>
      if s.status.AwaitingVerification? {
        VerifyAccounted(s, v, now);
        JudgedAccounted(s, v, store, policy, now, tape);
      }
  }

  /** The accounts hold after every run of every valid plan. */
  lemma {:induction false} RunAccounted(plan: Plan, s: LoopView, moves: seq<Move>)
    requires Started(plan, s)
    ensures Accounted(RunLoop(s, moves)) && RunLoop(s, moves).plan == plan
    decreases |moves|
  {
    if moves == [] {
      StartAccounted(plan, s);
    } else {
      RunAccounted(plan, s, moves[..|moves| - 1]);
      AfterAccounted(RunLoop(s, moves[..|moves| - 1]), moves[|moves| - 1]);
    }
  }

  // ----- Bounded runs -----

  /** The step a command previews, if it parks at a new write. */
  function Preview(s: LoopView, m: Move): Option<int> {
    var s' := After(s, m);
    if s'.status.AwaitingApproval? && s'.stepCount > s.stepCount && s'.current < |s'.plan.steps|
    then Some(s'.plan.steps[s'.current].number) else None
  }

  function Previews(s: LoopView, moves: seq<Move>): nat {
    if moves == [] then if s.status.AwaitingApproval? then 1 else 0
    else
      var n := |moves| - 1;
      Previews(s, moves[..n]) + if Preview(RunLoop(s, moves[..n]), moves[n]).Some? then 1 else 0
  }

  /** Whatever is done to a loop, its steps, iterations and previews stay within the plan's limits,
      and a command that parks at a write it did not park at before has previewed it. */
  lemma {:induction false} BoundedRuns(plan: Plan, s: LoopView, moves: seq<Move>)
    requires Started(plan, s)
    requires plan.maxSteps >= 0 && plan.maxApiCalls >= 0 && plan.maxIterations >= 0
    ensures var t := RunLoop(s, moves);
            && t.stepCount <= plan.maxSteps && t.stepCount <= plan.maxApiCalls
            && t.iterations <= plan.maxIterations
            && t.stepCount <= |plan.steps| + t.iterations
            && Previews(s, moves) <= t.stepCount
    decreases |moves|
  {
    RunAccounted(plan, s, moves);
    if moves == [] {
    } else {
      var n := |moves| - 1;
      BoundedRuns(plan, s, moves[..n]);
      RunAccounted(plan, s, moves[..n]);
      StepCountGrows(RunLoop(s, moves[..n]), moves[n]);
    }
  }

  lemma StepCountGrows(s: LoopView, m: Move)
    requires Accounted(s)
    ensures After(s, m).stepCount >= s.stepCount
  {
    match m
    case Continue(store, audit, createdIds, policy, now, tape) =>
      if s.status.Running? { DrivenAccounted(s, store, policy, now, tape); }
    case Judge(v, store, policy, now, tape) =>
      if s.status.AwaitingVerification? {
        VerifyAccounted(s, v, now);
        var s' := Verify(s, v, now);
        if s'.status.Running? { DrivenAccounted(s', store, policy, now, tape); }
      }
  }

  // ----- No duplicate create -----

  /** The loop is past step `k`, or awaits its verdict with created records, or is over. */
  ghost predicate CreatedAt(s: LoopView, k: nat) {
    && k < |s.plan.steps|
    && (|| k < s.current
        || (k == s.current && s.status.AwaitingVerification? && k < |s.artifacts| && s.artifacts[k].createdIds != [])
        || (k == s.current && Terminal(s.status)))
  }

  /** A verdict on a step that created records moves past it or ends the loop. */
  lemma VerifyCreated(s: LoopView, v: Verdict, now: Instant, k: nat)
    requires Accounted(s) && s.status.AwaitingVerification? && CreatedAt(s, k)
    ensures var s' := Verify(s, v, now);
            CreatedAt(s', k) && (s'.status.Running? ==> k < s'.current)
  {
    if k == s.current { DropOwn(s.artifacts, s.plan, k); }
  }

  lemma DriveCreated(s: LoopView, store: Store, policy: ApprovalPolicy, now: Instant, tape: seq<Tries>, k: nat)
    requires Accounted(s) && s.status.Running? && k < s.current
    ensures var t := Driven(s, store, policy, now, tape);
            k < t.current && t.plan == s.plan
  {
    DrivenAccounted(s, store, policy, now, tape);
  }

  lemma CreatedStays(s: LoopView, m: Move, k: nat)
    requires Accounted(s) && CreatedAt(s, k)
    ensures CreatedAt(After(s, m), k) && Preview(s, m) != Some(s.plan.steps[k].number)
  {
    AfterAccounted(s, m);
    match m {
      case Continue(store, audit, createdIds, policy, now, tape) =>
        if s.status.Running? { DriveCreated(s, store, policy, now, tape, k); }
      case Judge(v, store, policy, now, tape) =>
        if s.status.AwaitingVerification? {
          VerifyAccounted(s, v, now);
          VerifyCreated(s, v, now, k);
          var s' := Verify(s, v, now);
          if s'.status.Running? { DriveCreated(s', store, policy, now, tape, k); }
        }
    }
    var t := After(s, m);
    if t.status.AwaitingApproval? {
      assert StepValid(t.plan.steps, t.current);
    }
  }

  /** Once a step's artifact holds created ids, no later command of the loop previews it again. */
  lemma {:induction false} NoDuplicateCreate(s: LoopView, k: nat, moves: seq<Move>, m: Move)
    requires Accounted(s) && s.status.AwaitingVerification? && k == s.current
    requires s.artifacts[k].createdIds != []
    ensures Preview(RunLoop(s, moves), m) != Some(s.plan.steps[k].number)
  {
    CreatedForever(s, k, moves);
    CreatedStays(RunLoop(s, moves), m, k);
  }

  lemma {:induction false} CreatedForever(s: LoopView, k: nat, moves: seq<Move>)
    requires Accounted(s) && CreatedAt(s, k)
    ensures Accounted(RunLoop(s, moves)) && CreatedAt(RunLoop(s, moves), k) && RunLoop(s, moves).plan == s.plan
    decreases |moves|
  {
    if moves != [] {
      var n := |moves| - 1;
      CreatedForever(s, k, moves[..n]);
      AfterAccounted(RunLoop(s, moves[..n]), moves[n]);
      CreatedStays(RunLoop(s, moves[..n]), moves[n], k);
    }
  }

  // ----- Plateaus -----

  /** The last `k` verdicts are the same mismatch. */
  ghost predicate SameMismatch(verdicts: seq<Verdict>, k: nat) {
    && 0 < k <= |verdicts|
    && !verdicts[|verdicts| - 1].status.Verified?
    && forall i :: |verdicts| - k <= i < |verdicts| ==> verdicts[i] == verdicts[|verdicts| - 1]
  }

  /** The controller's two fields are exact: the last fingerprint, and how long it has repeated. */
  ghost predicate Tracks(s: LoopView, verdicts: seq<Verdict>) {
    && s.lastHash == (if verdicts == [] then None else Hash(verdicts[|verdicts| - 1]))
    && s.plateau <= |verdicts|
    && forall k: nat :: k > 0 ==> (SameMismatch(verdicts, k) <==> k <= s.plateau)
  }

  lemma OneMore(verdicts: seq<Verdict>, v: Verdict, k: nat)
    requires k > 0
    ensures SameMismatch(verdicts + [v], k) <==>
              !v.status.Verified? && (k == 1 || (SameMismatch(verdicts, k - 1) && verdicts[|verdicts| - 1] == v))
  {
    var all := verdicts + [v];
    if SameMismatch(all, k) && k > 1 {
      assert all[|verdicts| - 1] == v;
      assert forall i :: |verdicts| - (k - 1) <= i < |verdicts| ==> verdicts[i] == all[i];
    }
  }

  /** The controller's two fields follow every verdict that no budget pre-empts. */
  lemma VerdictTracks(s: LoopView, verdicts: seq<Verdict>, v: Verdict)
    requires Tracks(s, verdicts) && !BudgetStops(s)
    ensures Tracks(Decision(s, v).1, verdicts + [v])
  {
    var s' := s.(plateau := NextPlateau(s, v), lastHash := Hash(v));
    forall k: nat | k > 0
      ensures SameMismatch(verdicts + [v], k) <==> k <= s'.plateau
    {
      OneMore(verdicts, v, k);
    }
  }

  /** Unless a budget stops it first, the controller escalates exactly when the last
      `verificationPlateau` verdicts are the same mismatch, or the verdict is an error. */
  lemma PlateauExact(s: LoopView, verdicts: seq<Verdict>, v: Verdict)
    requires Tracks(s, verdicts) && !BudgetStops(s) && s.plan.verificationPlateau >= 1
    ensures var (action, s') := Decision(s, v);
            && Tracks(s', verdicts + [v])
            && (action == Escalate <==> v.status.VerdictError? || SameMismatch(verdicts + [v], s.plan.verificationPlateau))
            && (action == Proceed <==> v.status.Verified?)
  {
    VerdictTracks(s, verdicts, v);
  }

  /** The verdicts the controller has weighed in a run: those that arrived while one was awaited. */
  function Weighed(s: LoopView, moves: seq<Move>): seq<Verdict> {
    if moves == [] then []
    else
      var n := |moves| - 1;
      var t := RunLoop(s, moves[..n]);
      Weighed(s, moves[..n]) +
        if moves[n].Judge? && t.status.AwaitingVerification? && !BudgetStops(t) then [moves[n].verdict] else []
  }

  /** Over a whole run: an escalation for plateau comes at the first verdict that completes one. */
  lemma {:induction false} RunTracks(plan: Plan, s: LoopView, moves: seq<Move>)
    requires Started(plan, s)
    ensures Tracks(RunLoop(s, moves), Weighed(s, moves))
    decreases |moves|
  {
    if moves == [] {
      StartAccounted(plan, s);
    } else {
      var n := |moves| - 1;
      var t := RunLoop(s, moves[..n]);
      RunTracks(plan, s, moves[..n]);
      RunAccounted(plan, s, moves[..n]);
      MoveTracks(t, moves[n], Weighed(s, moves[..n]));
    }
  }

  lemma JudgeTracks(s: LoopView, v: Verdict, store: Store, policy: ApprovalPolicy, now: Instant, tape: seq<Tries>,
                    verdicts: seq<Verdict>)
    requires Accounted(s) && s.status.AwaitingVerification? && Tracks(s, verdicts)
    ensures Tracks(After(s, Judge(v, store, policy, now, tape)), verdicts + if !BudgetStops(s) then [v] else [])
  {
    assert verdicts + [] == verdicts;
    VerifyAccounted(s, v, now);
    if !BudgetStops(s) { VerdictTracks(s, verdicts, v); }
    var s' := Verify(s, v, now);
    if s'.status.Running? { DrivenAccounted(s', store, policy, now, tape); }
  }

  lemma MoveTracks(s: LoopView, m: Move, verdicts: seq<Verdict>)
    requires Accounted(s) && Tracks(s, verdicts)
    ensures Tracks(After(s, m), verdicts +
              if m.Judge? && s.status.AwaitingVerification? && !BudgetStops(s) then [m.verdict] else [])
  {
    assert verdicts + [] == verdicts;
    match m
    case Continue(store, audit, createdIds, policy, now, tape) =>
      if s.status.Running? { DrivenAccounted(s, store, policy, now, tape); }
    case Judge(v, store, policy, now, tape) =>
      if s.status.AwaitingVerification? { JudgeTracks(s, v, store, policy, now, tape, verdicts); }
  }

  /** In any run, a verdict that no budget pre-empts is escalated exactly when it is an error or the
      last of `verificationPlateau` identical mismatches weighed in that run, and accepted exactly
      when it verifies. */
  lemma RunEscalates(plan: Plan, s: LoopView, moves: seq<Move>, v: Verdict)
    requires Started(plan, s) && plan.verificationPlateau >= 1
    requires !BudgetStops(RunLoop(s, moves))
    ensures var t := RunLoop(s, moves);
            && (Decision(t, v).0 == Escalate <==>
                  v.status.VerdictError? || SameMismatch(Weighed(s, moves) + [v], plan.verificationPlateau))
            && (Decision(t, v).0 == Proceed <==> v.status.Verified?)
  {
    RunTracks(plan, s, moves);
    RunAccounted(plan, s, moves);
    PlateauExact(RunLoop(s, moves), Weighed(s, moves), v);
  }

  // ----- Scheduled runs -----

  /** What a scheduled run keeps at every loop head: each finished step is an artifact or a staged
      write, nothing waits for approval, and the staged ids are this run's own pending records. */
  ghost predicate ScheduledInv(s: LoopView, first: ActionId, st0: Store, st: Store) {
    && s.scheduled && |s.staged| + |s.artifacts| == s.current <= |s.plan.steps|
    && !s.status.AwaitingApproval? && !s.status.AwaitingVerification?
    && OwnStaged(s.staged, first, st0, st)
  }

  /** Since the store was `st0`, exactly the staged ids were added, and nothing else changed. */
  ghost predicate OwnStaged(staged: seq<ActionId>, first: ActionId, st0: Store, st: Store) {
    && st0.nextId == first <= st.nextId
    && (forall id <- staged :: first <= id < st.nextId && id in st.entries && st.entries[id].origin.None?)
    && (forall id <- st0.entries :: id < first ==> id in st.entries && st.entries[id] == st0.entries[id])
    && (forall id <- st.entries :: (id in st0.entries && id < first) || id in staged)
  }

  lemma StageOne(ids: seq<ActionId>, st0: Store, st: Store, p: Pending)
    requires OwnStaged(ids, st0.nextId, st0, st) && p.origin.None?
    ensures OwnStaged(ids + [st.nextId], st0.nextId, st0, Put(st, p))
  {
    var staged := ids + [st.nextId];
    assert forall id <- staged :: id in ids || id == st.nextId;
    assert staged[|ids|] == st.nextId;
    assert forall id <- ids :: id in staged;
  }

  lemma ToolScheduled(c: LoopView, st0: Store, st: Store, policy: ApprovalPolicy, now: Instant, step: PlanStep,
                      settled: Client.Attempt<ToolOutcome>)
    requires ScheduledInv(c, st0.nextId, st0, st) && c.current < |c.plan.steps|
    ensures var r := AfterTool(c, st, policy, now, step, settled);
            && ScheduledInv(r.loop, st0.nextId, st0, r.store) && c.staged <= r.loop.staged
            && (r.Go? ==> r.loop.current == c.current + 1 && r.loop.plan == c.plan)
  {
    if settled.Success? && settled.value.Fine? && IsWrite(settled.value.call) {
      StageOne(c.staged, st0, st, Staged(WriteIn(settled.value), policy, false, Some(step.number), now));
    }
  }

  lemma PrepareScheduled(s: LoopView, st0: Store, st: Store)
    requires ScheduledInv(s, st0.nextId, st0, st) && s.current < |s.plan.steps|
    ensures var c := Prepare(s).loop;
            ScheduledInv(c, st0.nextId, st0, st) && c.staged == s.staged && c.plan == s.plan && c.current == s.current
  {
  }

  lemma StepScheduled(s: LoopView, st0: Store, st: Store, policy: ApprovalPolicy, now: Instant, tries: Tries)
    requires ScheduledInv(s, st0.nextId, st0, st) && s.current < |s.plan.steps|
    ensures var r := DriveStep(s, st, policy, now, tries);
            && ScheduledInv(r.loop, st0.nextId, st0, r.store) && s.staged <= r.loop.staged
            && (r.Go? ==> r.loop.current == s.current + 1 && r.loop.plan == s.plan)
  {
    PrepareScheduled(s, st0, st);
    match Prepare(s)
    case Blocked(_) =>
    case Ready(c, step) => ToolScheduled(c, st0, st, policy, now, step, Client.Settled(tries));
  }

  lemma {:induction false} DriveScheduled(s: LoopView, st0: Store, st: Store, policy: ApprovalPolicy, now: Instant, tape: seq<Tries>)
    requires ScheduledInv(s, st0.nextId, st0, st) && s.current + |tape| >= |s.plan.steps|
    ensures var (s', st') := Drive(s, st, policy, now, tape);
            ScheduledInv(s', st0.nextId, st0, st')
    decreases |s.plan.steps| - s.current
  {
    if s.current < |s.plan.steps| {
      StepScheduled(s, st0, st, policy, now, tape[0]);
      var r := DriveStep(s, st, policy, now, tape[0]);
      if r.Go? { DriveScheduled(r.loop, st0, r.store, policy, now, tape[1..]); }
    }
  }

  /** A scheduled run refuses a step without a tool, and stages nothing for it. */
  lemma FreeTextRefused(s: LoopView, st: Store, policy: ApprovalPolicy, now: Instant, tape: seq<Tries>)
    requires s.scheduled && s.current < |s.plan.steps| && s.current + |tape| >= |s.plan.steps|
    requires s.plan.steps[s.current].toolName.None?
    ensures var (s', st') := Drive(s, st, policy, now, tape);
            (s'.status.Failed? || s'.status.OutOfBudget?) && st' == st && s'.current == s.current
  {
  }
}
