/** The execution fabric: plans of dependent steps, and how a plan is driven to completion. */
module ExecutionFabric {
  import opened Options
  import opened Sorting

  type Time = int

  datatype PlanStatus =
    | PlanPlanned | Authorized | Pending | PlanRunning | Executing | Checkpointed | Suspended | Resumed | Replayed
    | Paused | WaitingRemoteRuntime | WaitingHumanReview | PlanFailed | PlanCompleted | PlanRevoked | Cancelled
    | PlanInvalid

  datatype StepStatus = Planned | Running | Blocked | Completed | Failed | Skipped

  datatype StepType =
    | EvaluatePolicy | ValidateIdentity | ValidateRelationship | IssueCapability | EvaluateCapabilityUse
    | ExecuteObligation | RequestHumanReview | AwaitRemoteDecision | EmitAttestation | PropagateRevocation

  datatype Step = Step(
    stepId: string, stepType: StepType, status: StepStatus, dependsOn: seq<string>, attestationRefs: seq<string>,
    optional: bool, requiresAttestation: bool, startedAt: Option<Time>, completedAt: Option<Time>,
    failureReason: Option<string>)

  datatype Plan = Plan(planId: string, steps: seq<Step>, status: PlanStatus, createdAt: Time, completedAt: Option<Time>)

  datatype Error =
    | PlanNotFound(planId: string)
    | StepNotFound(stepId: string)
    | CannotStart(status: PlanStatus)
    | NotRunning
    | PlanWaiting
    | UnfinishedRequiredSteps
    | CompletedCannotBeCancelled
    | TerminalCannotBeFailed
    | DependenciesNotCompleted
    | AttestationMissing
    | InvalidAttestation

  /** A plan after an operation, and what the operation reported: a failing operation may still have changed it. */
  datatype Outcome = Outcome(plan: Plan, error: Option<Error>)

  // ---------- plans and steps ----------

  /** The position of the first step with the id. */
  function FindStep(steps: seq<Step>, stepId: string): (r: Option<nat>)
    ensures r.Some? ==> r.value < |steps| && steps[r.value].stepId == stepId
    ensures forall i | 0 <= i < (if r.Some? then r.value else |steps|) :: steps[i].stepId != stepId
  {
    if steps == [] then None
    else if steps[0].stepId == stepId then Some(0)
    else
      var rest := FindStep(steps[1..], stepId);
      assert forall i | 0 < i < |steps| :: steps[i] == steps[1..][i - 1];
      if rest.Some? then Some(rest.value + 1) else None
  }

  predicate IsCompleted(steps: seq<Step>, stepId: string) {
    exists i | 0 <= i < |steps| :: steps[i].stepId == stepId && steps[i].status == Completed
  }

  predicate DependenciesCompleted(steps: seq<Step>, step: Step) {
    forall d | d in step.dependsOn :: IsCompleted(steps, d)
  }

  predicate Executable(steps: seq<Step>, step: Step) {
    step.status == Planned && DependenciesCompleted(steps, step)
  }

  function ExecutableIn(steps: seq<Step>): Step -> bool {
    s => Executable(steps, s)
  }

  function BlockedIn(steps: seq<Step>): Step -> bool {
    (s: Step) => s.status == Planned && !DependenciesCompleted(steps, s)
  }

  function ListExecutable(plan: Plan): seq<Step> {
    Filter(plan.steps, ExecutableIn(plan.steps))
  }

  function ListBlocked(plan: Plan): seq<Step> {
    Filter(plan.steps, BlockedIn(plan.steps))
  }

  predicate CanStartPlan(status: PlanStatus) {
    status == PlanPlanned || status == Paused
  }

  predicate PlanIsWaiting(plan: Plan) {
    plan.status == WaitingRemoteRuntime || plan.status == WaitingHumanReview
  }

  predicate HasUnfinishedRequiredSteps(plan: Plan) {
    exists s | s in plan.steps :: !s.optional && s.status != Completed
  }

  predicate NeedsAttestation(step: Step) {
    step.stepType.EmitAttestation? || step.requiresAttestation
  }

  predicate Attested(step: Step) {
    NeedsAttestation(step) ==> step.attestationRefs != []
  }

  // ---------- operations on one plan ----------

  function Ok(plan: Plan): Outcome {
    Outcome(plan, None)
  }

  function Refuse(plan: Plan, error: Error): Outcome {
    Outcome(plan, Some(error))
  }

  function StartPlan(plan: Plan): Outcome {
    if CanStartPlan(plan.status) then Ok(plan.(status := PlanRunning)) else Refuse(plan, CannotStart(plan.status))
  }

  function PausePlan(plan: Plan): Outcome {
    if plan.status == PlanRunning then Ok(plan.(status := Paused)) else Refuse(plan, NotRunning)
  }

  function CompletePlan(plan: Plan, now: Time): Outcome {
    if PlanIsWaiting(plan) then Refuse(plan, PlanWaiting)
    else if HasUnfinishedRequiredSteps(plan) then Refuse(plan, UnfinishedRequiredSteps)
    else Ok(plan.(status := PlanCompleted, completedAt := Some(now)))
  }

  function CancelPlan(plan: Plan, now: Time): Outcome {
    if plan.status == PlanCompleted then Refuse(plan, CompletedCannotBeCancelled)
    else Ok(plan.(status := Cancelled, completedAt := Some(now)))
  }

  function FailPlan(plan: Plan): Outcome {
    if plan.status == PlanCompleted || plan.status == Cancelled then Refuse(plan, TerminalCannotBeFailed)
    else Ok(plan.(status := PlanFailed))
  }

  function AddStep(plan: Plan, step: Step): Outcome {
    Ok(plan.(steps := plan.steps + [step]))
  }

  function SetStep(plan: Plan, i: nat, step: Step): Plan
    requires i < |plan.steps|
  {
    plan.(steps := plan.steps[i := step])
  }

  function StartStep(plan: Plan, stepId: string, now: Time): Outcome {
    match FindStep(plan.steps, stepId)
    case None => Refuse(plan, StepNotFound(stepId))
    case Some(i) =>
      var step := plan.steps[i];
      if !DependenciesCompleted(plan.steps, step) then Refuse(plan, DependenciesNotCompleted)
      else Ok(SetStep(plan, i, step.(status := Running, startedAt := Some(now))))
  }

  function CompleteStep(plan: Plan, stepId: string, now: Time): Outcome {
    match FindStep(plan.steps, stepId)
    case None => Refuse(plan, StepNotFound(stepId))
    case Some(i) =>
      var step := plan.steps[i];
      if !Attested(step) then Refuse(plan, AttestationMissing)
      else Ok(SetStep(plan, i, step.(status := Completed, completedAt := Some(now))))
  }

  /** The step is marked failed before a required step's failure is passed on to the plan, which may refuse it. */
  function FailStep(plan: Plan, stepId: string, reason: string): Outcome {
    match FindStep(plan.steps, stepId)
    case None => Refuse(plan, StepNotFound(stepId))
    case Some(i) =>
      var step := plan.steps[i];
      var marked := SetStep(plan, i, step.(status := Failed, failureReason := Some(reason)));
      if step.optional then Ok(marked) else FailPlan(marked)
  }

  function AttachRef(plan: Plan, stepId: string, ref: string): Outcome {
    match FindStep(plan.steps, stepId)
    case None => Refuse(plan, StepNotFound(stepId))
    case Some(i) => Ok(SetStep(plan, i, plan.steps[i].(attestationRefs := plan.steps[i].attestationRefs + [ref])))
  }

  function RequireAttestation(plan: Plan, stepId: string): Outcome {
    match FindStep(plan.steps, stepId)
    case None => Refuse(plan, StepNotFound(stepId))
    case Some(i) => Ok(SetStep(plan, i, plan.steps[i].(requiresAttestation := true)))
  }

  // ---------- driving a plan ----------

  /** One round of a driver: start an executable step, then complete it. */
  datatype Turn = Turn(stepId: string, startedAt: Time, completedAt: Time)

  function Round(plan: Plan, turn: Turn): Outcome {
    var started := StartStep(plan, turn.stepId, turn.startedAt);
    if started.error.Some? then started else CompleteStep(started.plan, turn.stepId, turn.completedAt)
  }

  /** The id of a step that is executable now. */
  ghost predicate Choosable(plan: Plan, stepId: string) {
    exists i | 0 <= i < |plan.steps| :: plan.steps[i].stepId == stepId && Executable(plan.steps, plan.steps[i])
  }

  /** The choosable ids are those of the listed executable steps. */
  lemma ChoosableIsListed(plan: Plan, stepId: string)
    ensures Choosable(plan, stepId) <==> exists s :: s in ListExecutable(plan) && s.stepId == stepId
  {
    FilterMembers(plan.steps, ExecutableIn(plan.steps));
    if Choosable(plan, stepId) {
      var i :| 0 <= i < |plan.steps| && plan.steps[i].stepId == stepId && Executable(plan.steps, plan.steps[i]);
      assert plan.steps[i] in ListExecutable(plan);
    }
    if s :| s in ListExecutable(plan) && s.stepId == stepId {
      var i :| 0 <= i < |plan.steps| && plan.steps[i] == s;
    }
  }

  /** Every planned step is listed as executable or as blocked, once and not in both. */
  lemma PlannedAreListed(plan: Plan)
    ensures multiset(ListExecutable(plan)) + multiset(ListBlocked(plan))
         == multiset(Filter(plan.steps, (s: Step) => s.status == Planned))
  {
    FilterParts(plan.steps, ExecutableIn(plan.steps), BlockedIn(plan.steps), (s: Step) => s.status == Planned);
  }

  lemma {:induction false} FilterParts(steps: seq<Step>, a: Step -> bool, b: Step -> bool, either: Step -> bool)
    requires forall s :: either(s) <==> a(s) || b(s)
    requires forall s :: !(a(s) && b(s))
    ensures multiset(Filter(steps, a)) + multiset(Filter(steps, b)) == multiset(Filter(steps, either))
  {
    if steps != [] {
      FilterParts(steps[1..], a, b, either);
    }
  }

  /** A step is taken up in one of the rounds. */
  ghost predicate TakesTurn(turns: seq<Turn>, stepId: string) {
    turns != [] && (turns[0].stepId == stepId || TakesTurn(turns[1..], stepId))
  }

  /** Every round picks a step that is executable when its turn comes, and is accepted. */
  ghost predicate Legal(plan: Plan, turns: seq<Turn>)
    decreases |turns|
  {
    turns == [] ||
    (&& Choosable(plan, turns[0].stepId)
     && Round(plan, turns[0]).error.None?
     && Legal(Round(plan, turns[0]).plan, turns[1..]))
  }

  function Drive(plan: Plan, turns: seq<Turn>): Plan
    decreases |turns|
  {
    if turns == [] then plan else Drive(Round(plan, turns[0]).plan, turns[1..])
  }

  /** A drive that leaves every step completed. */
  ghost predicate Finishes(plan: Plan, turns: seq<Turn>) {
    Legal(plan, turns) && AllCompleted(Drive(plan, turns).steps)
  }

  ghost predicate DistinctIds(steps: seq<Step>) {
    forall i, j | 0 <= i < j < |steps| :: steps[i].stepId != steps[j].stepId
  }

  ghost predicate HasStep(steps: seq<Step>, stepId: string) {
    exists i | 0 <= i < |steps| :: steps[i].stepId == stepId
  }

  /** A plan a driver can work on: distinct step ids, existing dependencies, nothing under way or failed, and
      attestations in place where a step needs them. */
  ghost predicate Drivable(steps: seq<Step>) {
    && DistinctIds(steps)
    && (forall s | s in steps ::
          && (s.status == Planned || s.status == Completed)
          && Attested(s)
          && forall d | d in s.dependsOn :: HasStep(steps, d))
  }

  ghost predicate RankedBy(steps: seq<Step>, rank: map<string, nat>) {
    forall s | s in steps ::
      && s.stepId in rank
      && forall d | d in s.dependsOn :: d in rank && rank[d] < rank[s.stepId]
  }

  /** No step depends on itself through others: the dependencies can be ranked. */
  ghost predicate Acyclic(steps: seq<Step>) {
    exists rank :: RankedBy(steps, rank)
  }

  ghost function PlannedCount(steps: seq<Step>): nat {
    if steps == [] then 0 else PlannedCount(steps[1..]) + if steps[0].status == Planned then 1 else 0
  }

  ghost predicate AllCompleted(steps: seq<Step>) {
    forall s | s in steps :: s.status == Completed
  }

  lemma {:induction false} PlannedCountSet(steps: seq<Step>, i: nat, s: Step)
    requires i < |steps| && steps[i].status == Planned && s.status == Completed
    ensures PlannedCount(steps[i := s]) == PlannedCount(steps) - 1
  {
    if i > 0 {
      assert steps[i := s][1..] == steps[1..][i - 1 := s];
      PlannedCountSet(steps[1..], i - 1, s);
    } else {
      assert steps[0 := s][1..] == steps[1..];
    }
  }

  lemma {:induction false} NonePlanned(steps: seq<Step>)
    ensures PlannedCount(steps) == 0 <==> forall s | s in steps :: s.status != Planned
    ensures PlannedCount(steps) <= |steps|
  {
    if steps != [] {
      NonePlanned(steps[1..]);
      assert steps == [steps[0]] + steps[1..];
    }
  }

  /** Walking down from any planned step through uncompleted dependencies ends at an executable one. */
  lemma {:induction false} WalkDown(steps: seq<Step>, rank: map<string, nat>, i: nat) returns (j: nat)
    requires Drivable(steps) && RankedBy(steps, rank) && i < |steps| && steps[i].status == Planned
    ensures j < |steps| && Executable(steps, steps[j])
    decreases rank[steps[i].stepId]
  {
    assert steps[i] in steps;
    if DependenciesCompleted(steps, steps[i]) {
      return i;
    }
    var d :| d in steps[i].dependsOn && !IsCompleted(steps, d);
    var k :| 0 <= k < |steps| && steps[k].stepId == d;
    assert steps[k] in steps;
    j := WalkDown(steps, rank, k);
  }

  /** No deadlock: while a step is planned, some step is executable. */
  lemma SomeStepExecutable(plan: Plan)
    requires Drivable(plan.steps) && Acyclic(plan.steps) && PlannedCount(plan.steps) > 0
    ensures ListExecutable(plan) != [] && Choosable(plan, ListExecutable(plan)[0].stepId)
  {
    var rank :| RankedBy(plan.steps, rank);
    NonePlanned(plan.steps);
    var s :| s in plan.steps && s.status == Planned;
    var i :| 0 <= i < |plan.steps| && plan.steps[i] == s;
    var j := WalkDown(plan.steps, rank, i);
    FilterMembers(plan.steps, ExecutableIn(plan.steps));
    assert plan.steps[j] in ListExecutable(plan);
    ChoosableIsListed(plan, ListExecutable(plan)[0].stepId);
    assert ListExecutable(plan)[0] in ListExecutable(plan);
  }

  lemma FindDistinct(steps: seq<Step>, i: nat)
    requires DistinctIds(steps) && i < |steps|
    ensures FindStep(steps, steps[i].stepId) == Some(i)
  {
    var found := FindStep(steps, steps[i].stepId);
    assert found.Some?;
  }

  /** A round on an executable step is accepted exactly when its attestation is in place, and then does nothing but
      complete that step. */
  lemma RoundCompletes(plan: Plan, turn: Turn) returns (i: nat)
    requires DistinctIds(plan.steps) && Choosable(plan, turn.stepId)
    ensures i < |plan.steps| && plan.steps[i].stepId == turn.stepId && Executable(plan.steps, plan.steps[i])
    ensures Round(plan, turn).error.None? <==> Attested(plan.steps[i])
    ensures Attested(plan.steps[i]) ==> Round(plan, turn) == Ok(SetStep(plan, i,
      plan.steps[i].(status := Completed, startedAt := Some(turn.startedAt), completedAt := Some(turn.completedAt))))
  {
    i :| 0 <= i < |plan.steps| && plan.steps[i].stepId == turn.stepId && Executable(plan.steps, plan.steps[i]);
    FindDistinct(plan.steps, i);
    var started := plan.steps[i := plan.steps[i].(status := Running, startedAt := Some(turn.startedAt))];
    FindDistinct(started, i);
    assert StartStep(plan, turn.stepId, turn.startedAt) == Ok(plan.(steps := started));
  }

  lemma RoundShape(plan: Plan, turn: Turn, j: nat)
    requires Drivable(plan.steps) && Choosable(plan, turn.stepId) && j < |plan.steps|
    ensures var next := Round(plan, turn).plan.steps;
      |next| == |plan.steps| && next[j].stepId == plan.steps[j].stepId && next[j].dependsOn == plan.steps[j].dependsOn
  {
    var i := RoundCompletes(plan, turn);
    assert plan.steps[i] in plan.steps;
  }

  /** After a round the plan is still drivable, ranked as before, with one planned step fewer. */
  lemma RoundKeeps(plan: Plan, turn: Turn)
    requires Drivable(plan.steps) && Choosable(plan, turn.stepId)
    ensures var next := Round(plan, turn).plan;
      && Round(plan, turn).error.None?
      && Drivable(next.steps) && PlannedCount(next.steps) == PlannedCount(plan.steps) - 1
      && (forall rank | RankedBy(plan.steps, rank) :: RankedBy(next.steps, rank))
      && next == plan.(steps := next.steps)
      && (forall id :: IsCompleted(next.steps, id) <==> IsCompleted(plan.steps, id) || id == turn.stepId)
  {
    var i := RoundCompletes(plan, turn);
    assert plan.steps[i] in plan.steps;
    var next := Round(plan, turn).plan;
    PlannedCountSet(plan.steps, i, next.steps[i]);
    SetKeepsDrivable(plan.steps, i, next.steps[i]);
    SetCompletes(plan.steps, i, next.steps[i]);
  }

  lemma SetCompletes(steps: seq<Step>, i: nat, s: Step)
    requires i < |steps| && s.stepId == steps[i].stepId && s.status == Completed && steps[i].status == Planned
    ensures forall id :: IsCompleted(steps[i := s], id) <==> IsCompleted(steps, id) || id == s.stepId
  {
    var next := steps[i := s];
    forall id ensures IsCompleted(next, id) <==> IsCompleted(steps, id) || id == s.stepId {
      if IsCompleted(steps, id) {
        var k :| 0 <= k < |steps| && steps[k].stepId == id && steps[k].status == Completed;
        assert next[k] == steps[k];
      }
      if id == s.stepId {
        assert next[i].stepId == id;
      }
    }
  }

  lemma SetKeepsDrivable(steps: seq<Step>, i: nat, s: Step)
    requires Drivable(steps) && i < |steps|
    requires s == steps[i].(status := Completed, startedAt := s.startedAt, completedAt := s.completedAt)
    ensures Drivable(steps[i := s])
    ensures forall rank | RankedBy(steps, rank) :: RankedBy(steps[i := s], rank)
  {
    var next := steps[i := s];
    assert steps[i] in steps;
    forall id | HasStep(steps, id) ensures HasStep(next, id) {
      var k :| 0 <= k < |steps| && steps[k].stepId == id;
      assert next[k].stepId == id;
    }
    forall x | x in next ensures x in steps || x == s {
    }
  }

  /** However a driver chooses among the executable steps, each round completes one planned step. */
  lemma {:induction false} DriveProgress(plan: Plan, turns: seq<Turn>)
    requires Drivable(plan.steps) && Legal(plan, turns)
    ensures var last := Drive(plan, turns);
      && Drivable(last.steps) && last == plan.(steps := last.steps)
      && PlannedCount(last.steps) + |turns| == PlannedCount(plan.steps)
      && (forall rank | RankedBy(plan.steps, rank) :: RankedBy(last.steps, rank))
      && (forall id :: IsCompleted(last.steps, id) <==>
            IsCompleted(plan.steps, id) || TakesTurn(turns, id))
    decreases |turns|
  {
    if turns != [] {
      var next := Round(plan, turns[0]).plan;
      RoundKeeps(plan, turns[0]);
      DriveProgress(next, turns[1..]);
    }
  }

  /** A driver never gets stuck and never needs more rounds than the plan has steps: when nothing is executable
      any more, every step is completed and, unless the plan is waiting, completing it succeeds. */
  lemma DriverFinishes(plan: Plan, turns: seq<Turn>, now: Time)
    requires Drivable(plan.steps) && Acyclic(plan.steps) && Legal(plan, turns)
    ensures |turns| <= |plan.steps|
    ensures var last := Drive(plan, turns);
      && (ListExecutable(last) == [] <==> AllCompleted(last.steps))
      && (AllCompleted(last.steps) <==> |turns| == PlannedCount(plan.steps))
      && (AllCompleted(last.steps) && !PlanIsWaiting(plan) ==>
            CompletePlan(last, now) == Ok(last.(status := PlanCompleted, completedAt := Some(now))))
  {
    DriveProgress(plan, turns);
    NonePlanned(plan.steps);
    var last := Drive(plan, turns);
    NonePlanned(last.steps);
    FilterMembers(last.steps, ExecutableIn(last.steps));
    if PlannedCount(last.steps) > 0 {
      var rank :| RankedBy(plan.steps, rank);
      SomeStepExecutable(last);
    } else {
      assert forall s | s in last.steps :: s.status == Completed;
      if ListExecutable(last) != [] {
        assert ListExecutable(last)[0] in ListExecutable(last);
      }
    }
  }

  lemma EarlierTurns(turns: seq<Turn>, k: nat, stepId: string)
    requires 0 < k <= |turns|
    ensures TakesTurn(turns[..k], stepId) <==> turns[0].stepId == stepId || TakesTurn(turns[1..][..k - 1], stepId)
  {
    assert turns[..k][1..] == turns[1..][..k - 1];
  }

  /** Steps are completed in dependency order: each dependency was completed before the drive or in an earlier round. */
  lemma {:induction false} DependencyOrder(plan: Plan, turns: seq<Turn>, k: nat, i: nat, d: string)
    requires Drivable(plan.steps) && Legal(plan, turns) && k < |turns| && i < |plan.steps|
    requires plan.steps[i].stepId == turns[k].stepId && d in plan.steps[i].dependsOn
    ensures IsCompleted(plan.steps, d) || TakesTurn(turns[..k], d)
    decreases |turns|
  {
    if k == 0 {
      var m := RoundCompletes(plan, turns[0]);
      assert m == i && plan.steps[i] in plan.steps;
    } else {
      var next := Round(plan, turns[0]).plan;
      RoundKeeps(plan, turns[0]);
      RoundShape(plan, turns[0], i);
      assert turns[1..][k - 1] == turns[k];
      DependencyOrder(next, turns[1..], k - 1, i, d);
      EarlierTurns(turns, k, d);
    }
  }

  // ---------- which plans can be completed ----------

  /** An order of work: the goal is completed or has a place in it; what has a place is planned, has its attestation,
      and depends on completed steps and on steps placed earlier. */
  ghost predicate Schedule(steps: seq<Step>, goal: set<string>, rank: map<string, nat>) {
    && (forall id | id in goal :: IsCompleted(steps, id) || id in rank)
    && (forall id | id in rank :: Workable(steps, rank, id))
  }

  ghost predicate Workable(steps: seq<Step>, rank: map<string, nat>, id: string) {
    exists i | 0 <= i < |steps| :: steps[i].stepId == id && Placed(steps, rank, steps[i])
  }

  ghost predicate Placed(steps: seq<Step>, rank: map<string, nat>, step: Step) {
    && step.status == Planned && Attested(step) && step.stepId in rank
    && forall d | d in step.dependsOn :: IsCompleted(steps, d) || (d in rank && rank[d] < rank[step.stepId])
  }

  /** A drive after which the steps of the goal are completed. */
  ghost predicate Reaches(plan: Plan, turns: seq<Turn>, goal: set<string>) {
    Legal(plan, turns) && forall id | id in goal :: IsCompleted(Drive(plan, turns).steps, id)
  }

  /** The steps with the id given completed, the others as they were. */
  ghost predicate OneCompleted(before: seq<Step>, after: seq<Step>, id: string) {
    && |after| == |before|
    && forall j | 0 <= j < |before| :: after[j] ==
         if before[j].stepId == id
         then before[j].(status := Completed, startedAt := after[j].startedAt, completedAt := after[j].completedAt)
         else before[j]
  }

  lemma LegalRound(plan: Plan, turn: Turn) returns (i: nat)
    requires DistinctIds(plan.steps) && Choosable(plan, turn.stepId) && Round(plan, turn).error.None?
    ensures i < |plan.steps| && plan.steps[i].stepId == turn.stepId
    ensures Executable(plan.steps, plan.steps[i]) && Attested(plan.steps[i])
    ensures var next := Round(plan, turn).plan;
      && OneCompleted(plan.steps, next.steps, turn.stepId)
      && next == plan.(steps := next.steps) && DistinctIds(next.steps)
      && forall id :: IsCompleted(next.steps, id) <==> IsCompleted(plan.steps, id) || id == turn.stepId
  {
    i := RoundCompletes(plan, turn);
    SetCompletes(plan.steps, i, Round(plan, turn).plan.steps[i]);
  }

  function PlacedFirst(first: string, rest: map<string, nat>): map<string, nat> {
    map id | id in rest.Keys + {first} :: if id == first then 0 else rest[id] + 1
  }

  lemma ScheduleGrows(plan: Plan, turn: Turn, goal: set<string>, rest: map<string, nat>)
    requires DistinctIds(plan.steps) && Choosable(plan, turn.stepId) && Round(plan, turn).error.None?
    requires Schedule(Round(plan, turn).plan.steps, goal, rest)
    ensures Schedule(plan.steps, goal, PlacedFirst(turn.stepId, rest))
  {
    var k := LegalRound(plan, turn);
    var next, rank := Round(plan, turn).plan.steps, PlacedFirst(turn.stepId, rest);
    forall id | id in rank ensures Workable(plan.steps, rank, id) {
      if id == turn.stepId {
        PlacedAtOnce(plan.steps, rest, k);
      } else {
        assert Workable(next, rest, id);
        var i :| 0 <= i < |next| && next[i].stepId == id && Placed(next, rest, next[i]);
        PlacedLater(plan.steps, next, turn.stepId, rest, i);
      }
    }
  }

  lemma PlacedAtOnce(steps: seq<Step>, rest: map<string, nat>, k: nat)
    requires k < |steps| && Executable(steps, steps[k]) && Attested(steps[k])
    ensures Placed(steps, PlacedFirst(steps[k].stepId, rest), steps[k])
  {
  }

  lemma PlacedLater(before: seq<Step>, after: seq<Step>, first: string, rest: map<string, nat>, i: nat)
    requires OneCompleted(before, after, first) && i < |after| && Placed(after, rest, after[i])
    requires forall id :: IsCompleted(after, id) <==> IsCompleted(before, id) || id == first
    ensures Placed(before, PlacedFirst(first, rest), before[i])
  {
  }

  lemma PlacedSooner(before: seq<Step>, after: seq<Step>, first: string, rank: map<string, nat>, i: nat)
    requires OneCompleted(before, after, first) && i < |before| && Placed(before, rank, before[i])
    requires forall id :: IsCompleted(after, id) <==> IsCompleted(before, id) || id == first
    requires before[i].stepId != first
    ensures Placed(after, rank - {first}, after[i])
  {
  }

  /** The rounds of a drive are an order of work. */
  lemma {:induction false} DriveIsSchedule(plan: Plan, turns: seq<Turn>, goal: set<string>)
    returns (rank: map<string, nat>)
    requires DistinctIds(plan.steps) && Reaches(plan, turns, goal)
    ensures Schedule(plan.steps, goal, rank)
    decreases |turns|
  {
    rank := map[];
    if turns != [] {
      var _ := LegalRound(plan, turns[0]);
      rank := DriveIsSchedule(Round(plan, turns[0]).plan, turns[1..], goal);
      ScheduleGrows(plan, turns[0], goal, rank);
      rank := PlacedFirst(turns[0].stepId, rank);
    }
  }

  /** In an order of work, something can be done at once. */
  lemma {:induction false} FirstOfSchedule(plan: Plan, goal: set<string>, rank: map<string, nat>, id: string)
    returns (i: nat)
    requires Schedule(plan.steps, goal, rank) && id in rank
    ensures i < |plan.steps| && Placed(plan.steps, rank, plan.steps[i]) && Executable(plan.steps, plan.steps[i])
    decreases rank[id]
  {
    assert Workable(plan.steps, rank, id);
    i :| 0 <= i < |plan.steps| && plan.steps[i].stepId == id && Placed(plan.steps, rank, plan.steps[i]);
    if !DependenciesCompleted(plan.steps, plan.steps[i]) {
      var d :| d in plan.steps[i].dependsOn && !IsCompleted(plan.steps, d);
      i := FirstOfSchedule(plan, goal, rank, d);
    }
  }

  lemma FirstRound(plan: Plan, goal: set<string>, rank: map<string, nat>, id: string) returns (turn: Turn)
    requires DistinctIds(plan.steps) && Schedule(plan.steps, goal, rank) && id in rank
    ensures turn.stepId in rank && Choosable(plan, turn.stepId) && Round(plan, turn).error.None?
  {
    var k := FirstOfSchedule(plan, goal, rank, id);
    turn := Turn(plan.steps[k].stepId, 0, 0);
    var m := RoundCompletes(plan, turn);
    assert m == k;
  }

  lemma ScheduleShrinks(
    plan: Plan, turn: Turn, goal: set<string>, rank: map<string, nat>, rest: map<string, nat>)
    requires DistinctIds(plan.steps) && Schedule(plan.steps, goal, rank) && rest == rank - {turn.stepId}
    requires Choosable(plan, turn.stepId) && Round(plan, turn).error.None?
    ensures Schedule(Round(plan, turn).plan.steps, goal, rest)
  {
    var k := LegalRound(plan, turn);
    var next := Round(plan, turn).plan;
    forall id | id in rest ensures Workable(next.steps, rest, id) {
      assert Workable(plan.steps, rank, id);
      var i :| 0 <= i < |plan.steps| && plan.steps[i].stepId == id && Placed(plan.steps, rank, plan.steps[i]);
      PlacedSooner(plan.steps, next.steps, turn.stepId, rank, i);
    }
  }

  lemma ReachesAfterRound(plan: Plan, turn: Turn, turns: seq<Turn>, goal: set<string>)
    requires Choosable(plan, turn.stepId) && Round(plan, turn).error.None?
    requires Reaches(Round(plan, turn).plan, turns, goal)
    ensures Reaches(plan, [turn] + turns, goal)
  {
    assert ([turn] + turns)[1..] == turns;
  }

  /** An order of work can be driven through. */
  lemma {:induction false} ScheduleIsDrive(plan: Plan, goal: set<string>, rank: map<string, nat>)
    returns (turns: seq<Turn>)
    requires DistinctIds(plan.steps) && Schedule(plan.steps, goal, rank)
    ensures Reaches(plan, turns, goal)
    decreases |rank|
  {
    turns := [];
    if rank != map[] {
      var id :| id in rank;
      var turn := FirstRound(plan, goal, rank, id);
      var rest := rank - {turn.stepId};
      assert rest.Keys == rank.Keys - {turn.stepId};
      ScheduleShrinks(plan, turn, goal, rank, rest);
      var _ := LegalRound(plan, turn);
      turns := ScheduleIsDrive(Round(plan, turn).plan, goal, rest);
      ReachesAfterRound(plan, turn, turns, goal);
      turns := [turn] + turns;
    }
  }

  /** Driving keeps the ids and what is optional. */
  lemma {:induction false} DriveKeeps(plan: Plan, turns: seq<Turn>)
    requires DistinctIds(plan.steps) && Legal(plan, turns)
    ensures var last := Drive(plan, turns);
      && last == plan.(steps := last.steps) && |last.steps| == |plan.steps| && DistinctIds(last.steps)
      && forall i | 0 <= i < |plan.steps| ::
           last.steps[i].stepId == plan.steps[i].stepId && last.steps[i].optional == plan.steps[i].optional
    decreases |turns|
  {
    if turns != [] {
      var _ := LegalRound(plan, turns[0]);
      DriveKeeps(Round(plan, turns[0]).plan, turns[1..]);
    }
  }

  ghost function Ids(steps: seq<Step>): set<string> {
    set i | 0 <= i < |steps| :: steps[i].stepId
  }

  ghost function RequiredIds(steps: seq<Step>): set<string> {
    set i | 0 <= i < |steps| && !steps[i].optional :: steps[i].stepId
  }

  lemma CompletedById(plan: Plan)
    requires DistinctIds(plan.steps)
    ensures AllCompleted(plan.steps) <==> forall id | id in Ids(plan.steps) :: IsCompleted(plan.steps, id)
    ensures !HasUnfinishedRequiredSteps(plan)
       <==> forall id | id in RequiredIds(plan.steps) :: IsCompleted(plan.steps, id)
  {
    forall i | 0 <= i < |plan.steps|
      ensures IsCompleted(plan.steps, plan.steps[i].stepId) <==> plan.steps[i].status == Completed
      ensures plan.steps[i].stepId in Ids(plan.steps)
      ensures !plan.steps[i].optional ==> plan.steps[i].stepId in RequiredIds(plan.steps)
    {
    }
  }

  lemma DriveKeepsIds(plan: Plan, turns: seq<Turn>)
    requires DistinctIds(plan.steps) && Legal(plan, turns)
    ensures var last := Drive(plan, turns);
      Ids(last.steps) == Ids(plan.steps) && RequiredIds(last.steps) == RequiredIds(plan.steps)
  {
    DriveKeeps(plan, turns);
    var last := Drive(plan, turns).steps;
    forall i | 0 <= i < |last|
      ensures last[i].stepId in Ids(plan.steps) && plan.steps[i].stepId in Ids(last)
      ensures !last[i].optional ==> last[i].stepId in RequiredIds(plan.steps)
      ensures !last[i].optional ==> plan.steps[i].stepId in RequiredIds(last)
    {
    }
  }

  /** A drive after which the plan can be completed. */
  ghost predicate LeadsToCompletion(plan: Plan, turns: seq<Turn>, now: Time) {
    Legal(plan, turns) && CompletePlan(Drive(plan, turns), now).error.None?
  }

  /** A plan in whatever state can be driven to its completion exactly when it is not waiting and there is an order of
      work for its required steps. */
  lemma CompletableIff(plan: Plan, now: Time)
    requires DistinctIds(plan.steps)
    ensures (exists turns :: LeadsToCompletion(plan, turns, now))
       <==> !PlanIsWaiting(plan) && exists rank :: Schedule(plan.steps, RequiredIds(plan.steps), rank)
  {
    forall turns | Legal(plan, turns)
      ensures LeadsToCompletion(plan, turns, now)
         <==> !PlanIsWaiting(plan) && Reaches(plan, turns, RequiredIds(plan.steps))
    {
      DriveKeeps(plan, turns);
      DriveKeepsIds(plan, turns);
      CompletedById(Drive(plan, turns));
    }
    if turns :| LeadsToCompletion(plan, turns, now) {
      var rank := DriveIsSchedule(plan, turns, RequiredIds(plan.steps));
    }
    if rank :| Schedule(plan.steps, RequiredIds(plan.steps), rank) {
      var turns := ScheduleIsDrive(plan, RequiredIds(plan.steps), rank);
    }
  }

  /** All its steps can be completed exactly when there is an order of work for all of them. */
  lemma FinishableIff(plan: Plan)
    requires DistinctIds(plan.steps)
    ensures (exists turns :: Finishes(plan, turns)) <==> exists rank :: Schedule(plan.steps, Ids(plan.steps), rank)
  {
    forall turns | Legal(plan, turns) ensures Finishes(plan, turns) <==> Reaches(plan, turns, Ids(plan.steps)) {
      DriveKeeps(plan, turns);
      DriveKeepsIds(plan, turns);
      CompletedById(Drive(plan, turns));
    }
    if turns :| Finishes(plan, turns) {
      var rank := DriveIsSchedule(plan, turns, Ids(plan.steps));
    }
    if rank :| Schedule(plan.steps, Ids(plan.steps), rank) {
      var turns := ScheduleIsDrive(plan, Ids(plan.steps), rank);
    }
  }

  /** In particular a drivable plan with everything still planned can be finished exactly when its dependencies are
      acyclic. */
  lemma CompletableIffAcyclic(plan: Plan)
    requires Drivable(plan.steps) && forall s | s in plan.steps :: s.status == Planned
    ensures Acyclic(plan.steps) <==> exists turns :: Finishes(plan, turns)
  {
    FinishableIff(plan);
    NoneCompleted(plan.steps);
    if rank :| RankedBy(plan.steps, rank) {
      RankIsSchedule(plan.steps, rank);
    }
    if rank :| Schedule(plan.steps, Ids(plan.steps), rank) {
      ScheduleIsRank(plan.steps, rank);
    }
  }

  lemma RankIsSchedule(steps: seq<Step>, rank: map<string, nat>)
    requires Drivable(steps) && (forall s | s in steps :: s.status == Planned) && RankedBy(steps, rank)
    ensures exists order :: Schedule(steps, Ids(steps), order)
  {
    var order := map id | id in Ids(steps) :: rank[id];
    forall id | id in order ensures Workable(steps, order, id) {
      var i :| 0 <= i < |steps| && steps[i].stepId == id;
      assert steps[i] in steps;
      forall d | d in steps[i].dependsOn ensures d in order {
        var k :| 0 <= k < |steps| && steps[k].stepId == d;
        assert steps[k] in steps;
      }
      assert Placed(steps, order, steps[i]);
    }
    assert Schedule(steps, Ids(steps), order);
  }

  lemma ScheduleIsRank(steps: seq<Step>, rank: map<string, nat>)
    requires DistinctIds(steps) && (forall id :: !IsCompleted(steps, id)) && Schedule(steps, Ids(steps), rank)
    ensures RankedBy(steps, rank)
  {
    forall s | s in steps ensures Placed(steps, rank, s) {
      var i :| 0 <= i < |steps| && steps[i] == s;
      assert Workable(steps, rank, s.stepId);
    }
  }

  lemma NoneCompleted(steps: seq<Step>)
    requires forall s | s in steps :: s.status == Planned
    ensures forall id :: !IsCompleted(steps, id)
  {
    assert forall i | 0 <= i < |steps| :: steps[i] in steps;
  }

  // ---------- the fabric ----------

  datatype AttestationRef = AttestationRef(planId: string, stepId: string, ref: string)

  class ExecutionFabric {
    var plans: map<string, Plan>
    var stepAttestations: map<string, seq<AttestationRef>>

    constructor ()
      ensures plans == map[] && stepAttestations == map[]
    {
      plans, stepAttestations := map[], map[];
    }

    /** The plan is stored as planned; its own creation time is kept when it has one. */
    method CreateExecutionPlan(plan: Plan, createdAt: Option<Time>, now: Time) returns (r: Plan)
      modifies this`plans
      ensures r == plan.(status := PlanPlanned, createdAt := if createdAt.Some? then createdAt.value else now)
      ensures plans == old(plans)[plan.planId := r]
    {
      r := plan.(status := PlanPlanned);
      r := r.(createdAt := if createdAt.Some? then createdAt.value else now);
      plans := plans[plan.planId := r];
    }

    /** What an operation on a stored plan leaves behind, error or not. */
    ghost predicate Applied(before: map<string, Plan>, planId: string, outcome: Plan -> Outcome, error: Option<Error>)
      reads this
    {
      if planId !in before then plans == before && error == Some(PlanNotFound(planId))
      else
        && plans == before[planId := outcome(before[planId]).plan]
        && error == outcome(before[planId]).error
    }

    method StartExecutionPlan(planId: string) returns (error: Option<Error>)
      modifies this`plans
      ensures Applied(old(plans), planId, StartPlan, error)
    {
      if planId !in plans { return Some(PlanNotFound(planId)); }
      var plan := plans[planId];
      if !CanStartPlan(plan.status) { return Some(CannotStart(plan.status)); }
      plans := plans[planId := plan.(status := PlanRunning)];
      error := None;
    }

    method PauseExecutionPlan(planId: string) returns (error: Option<Error>)
      modifies this`plans
      ensures Applied(old(plans), planId, PausePlan, error)
    {
      if planId !in plans { return Some(PlanNotFound(planId)); }
      var plan := plans[planId];
      if plan.status != PlanRunning { return Some(NotRunning); }
      plans := plans[planId := plan.(status := Paused)];
      error := None;
    }

    /** Only a plan with every required step completed becomes completed. */
    method CompleteExecutionPlan(planId: string, now: Time) returns (error: Option<Error>)
      modifies this`plans
      ensures Applied(old(plans), planId, p => CompletePlan(p, now), error)
      ensures error.None? ==>
        && planId in plans && plans[planId].status == PlanCompleted
        && forall s | s in plans[planId].steps :: s.optional || s.status == Completed
    {
      if planId !in plans { return Some(PlanNotFound(planId)); }
      var plan := plans[planId];
      if PlanIsWaiting(plan) { return Some(PlanWaiting); }
      if HasUnfinishedRequiredSteps(plan) { return Some(UnfinishedRequiredSteps); }
      plans := plans[planId := plan.(status := PlanCompleted, completedAt := Some(now))];
      error := None;
    }

    method CancelExecutionPlan(planId: string, now: Time) returns (error: Option<Error>)
      modifies this`plans
      ensures Applied(old(plans), planId, p => CancelPlan(p, now), error)
    {
      if planId !in plans { return Some(PlanNotFound(planId)); }
      var plan := plans[planId];
      if plan.status == PlanCompleted { return Some(CompletedCannotBeCancelled); }
      plans := plans[planId := plan.(status := Cancelled, completedAt := Some(now))];
      error := None;
    }

    method FailExecutionPlan(planId: string) returns (error: Option<Error>)
      modifies this`plans
      ensures Applied(old(plans), planId, FailPlan, error)
    {
      if planId !in plans { return Some(PlanNotFound(planId)); }
      var plan := plans[planId];
      if plan.status == PlanCompleted || plan.status == Cancelled { return Some(TerminalCannotBeFailed); }
      plans := plans[planId := plan.(status := PlanFailed)];
      error := None;
    }

    method AddExecutionStep(planId: string, step: Step) returns (error: Option<Error>)
      modifies this`plans
      ensures Applied(old(plans), planId, p => AddStep(p, step), error)
    {
      if planId !in plans { return Some(PlanNotFound(planId)); }
      plans := plans[planId := plans[planId].(steps := plans[planId].steps + [step])];
      error := None;
    }

    method StartExecutionStep(planId: string, stepId: string, now: Time) returns (error: Option<Error>)
      modifies this`plans
      ensures Applied(old(plans), planId, p => StartStep(p, stepId, now), error)
    {
      if planId !in plans { return Some(PlanNotFound(planId)); }
      var plan := plans[planId];
      var found := FindStep(plan.steps, stepId);
      if found.None? { return Some(StepNotFound(stepId)); }
      var step := plan.steps[found.value];
      if !DependenciesCompleted(plan.steps, step) { return Some(DependenciesNotCompleted); }
      step := step.(status := Running);
      step := step.(startedAt := Some(now));
      plans := plans[planId := SetStep(plan, found.value, step)];
      error := None;
    }

    method CompleteExecutionStep(planId: string, stepId: string, now: Time) returns (error: Option<Error>)
      modifies this`plans
      ensures Applied(old(plans), planId, p => CompleteStep(p, stepId, now), error)
    {
      if planId !in plans { return Some(PlanNotFound(planId)); }
      var plan := plans[planId];
      var found := FindStep(plan.steps, stepId);
      if found.None? { return Some(StepNotFound(stepId)); }
      var step := plan.steps[found.value];
      if step.stepType.EmitAttestation? && |step.attestationRefs| == 0 { return Some(AttestationMissing); }
      if step.requiresAttestation && |step.attestationRefs| == 0 { return Some(AttestationMissing); }
      step := step.(status := Completed);
      step := step.(completedAt := Some(now));
      plans := plans[planId := SetStep(plan, found.value, step)];
      error := None;
    }

    method FailExecutionStep(planId: string, stepId: string, reason: string) returns (error: Option<Error>)
      modifies this`plans
      ensures Applied(old(plans), planId, p => FailStep(p, stepId, reason), error)
    {
      if planId !in plans { return Some(PlanNotFound(planId)); }
      var plan := plans[planId];
      var found := FindStep(plan.steps, stepId);
      if found.None? { return Some(StepNotFound(stepId)); }
      var step := plan.steps[found.value];
      step := step.(status := Failed);
      step := step.(failureReason := Some(reason));
      plans := plans[planId := SetStep(plan, found.value, step)];
      error := None;
      if !step.optional {
        error := FailExecutionPlan(planId);
      }
    }

    method ListExecutableSteps(planId: string) returns (r: Result<seq<Step>, Error>)
      ensures r == if planId in plans then Result.Ok(ListExecutable(plans[planId])) else Err(PlanNotFound(planId))
    {
      if planId !in plans { return Err(PlanNotFound(planId)); }
      var plan := plans[planId];
      var steps: seq<Step> := [];
      for i := 0 to |plan.steps|
        invariant steps == Filter(plan.steps[..i], ExecutableIn(plan.steps))
      {
        FilterConcat(plan.steps[..i], [plan.steps[i]], ExecutableIn(plan.steps));
        assert plan.steps[..i + 1] == plan.steps[..i] + [plan.steps[i]];
        if Executable(plan.steps, plan.steps[i]) { steps := steps + [plan.steps[i]]; }
      }
      assert plan.steps[..|plan.steps|] == plan.steps;
      r := Result.Ok(steps);
    }

    method ListBlockedSteps(planId: string) returns (r: Result<seq<Step>, Error>)
      ensures r == if planId in plans then Result.Ok(ListBlocked(plans[planId])) else Err(PlanNotFound(planId))
    {
      if planId !in plans { return Err(PlanNotFound(planId)); }
      var plan := plans[planId];
      var steps: seq<Step> := [];
      for i := 0 to |plan.steps|
        invariant steps == Filter(plan.steps[..i], BlockedIn(plan.steps))
      {
        var step := plan.steps[i];
        FilterConcat(plan.steps[..i], [step], BlockedIn(plan.steps));
        assert plan.steps[..i + 1] == plan.steps[..i] + [step];
        if step.status == Planned && !DependenciesCompleted(plan.steps, step) { steps := steps + [step]; }
      }
      assert plan.steps[..|plan.steps|] == plan.steps;
      r := Result.Ok(steps);
    }

    /** The reference is recorded under the plan and step even when the step then turns out not to exist. */
    method AttachExecutionAttestation(planId: string, stepId: string, ref: string, validRef: string -> bool)
      returns (error: Option<Error>)
      modifies this
      ensures validRef(ref) ==> Applied(old(plans), planId, p => AttachRef(p, stepId, ref), error)
      ensures validRef(ref) ==>
        var key := planId + ":" + stepId;
        var existing := if key in old(stepAttestations) then old(stepAttestations)[key] else [];
        stepAttestations == old(stepAttestations)[key := existing + [AttestationRef(planId, stepId, ref)]]
      ensures !validRef(ref) ==>
        plans == old(plans) && stepAttestations == old(stepAttestations) && error == Some(InvalidAttestation)
    {
      if !validRef(ref) { return Some(InvalidAttestation); }
      var key := planId + ":" + stepId;
      var existing := if key in stepAttestations then stepAttestations[key] else [];
      stepAttestations := stepAttestations[key := existing + [AttestationRef(planId, stepId, ref)]];
      if planId !in plans { return Some(PlanNotFound(planId)); }
      var plan := plans[planId];
      var found := FindStep(plan.steps, stepId);
      if found.None? { return Some(StepNotFound(stepId)); }
      var step := plan.steps[found.value];
      plans := plans[planId := SetStep(plan, found.value, step.(attestationRefs := step.attestationRefs + [ref]))];
      error := None;
    }

    method RequireStepAttestation(planId: string, stepId: string) returns (error: Option<Error>)
      modifies this`plans
      ensures Applied(old(plans), planId, p => RequireAttestation(p, stepId), error)
    {
      if planId !in plans { return Some(PlanNotFound(planId)); }
      var plan := plans[planId];
      var found := FindStep(plan.steps, stepId);
      if found.None? { return Some(StepNotFound(stepId)); }
      plans := plans[planId := SetStep(plan, found.value, plan.steps[found.value].(requiresAttestation := true))];
      error := None;
    }
  }
}
