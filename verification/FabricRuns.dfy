/** What the operations on a plan come to, written out, and what they make of it over whole runs. */
module FabricRuns {
  import opened Options
  import opened ExecutionFabric

  // ---------- single operations ----------

  /** The step an id stands for: the first one under it. */
  ghost predicate StandsFor(steps: seq<Step>, i: int, stepId: string) {
    0 <= i < |steps| && steps[i].stepId == stepId && forall j | 0 <= j < i :: steps[j].stepId != stepId
  }

  /** Some step under the id is completed. */
  ghost predicate Done(steps: seq<Step>, stepId: string) {
    exists s :: s in steps && s.stepId == stepId && s.status == Completed
  }

  lemma DoneIsCompleted(steps: seq<Step>, stepId: string)
    ensures Done(steps, stepId) <==> IsCompleted(steps, stepId)
  {
    if i :| 0 <= i < |steps| && steps[i].stepId == stepId && steps[i].status == Completed {
      assert steps[i] in steps;
    }
    if s :| s in steps && s.stepId == stepId && s.status == Completed {
      var i :| 0 <= i < |steps| && steps[i] == s;
    }
  }

  lemma FoundStandsFor(steps: seq<Step>, stepId: string)
    ensures match FindStep(steps, stepId)
      case None => forall i :: !StandsFor(steps, i, stepId)
      case Some(i) => StandsFor(steps, i, stepId) && forall j :: StandsFor(steps, j, stepId) ==> j == i
  {
  }

  /** An operation that fails leaves the plan alone, and one that succeeds changes one step only. */
  ghost predicate ChangesStep(plan: Plan, outcome: Outcome, i: int, step: Step) {
    && 0 <= i < |plan.steps| && outcome.error == None
    && |outcome.plan.steps| == |plan.steps|
    && outcome.plan.steps[i] == step
    && (forall j | 0 <= j < |plan.steps| && j != i :: outcome.plan.steps[j] == plan.steps[j])
    && outcome.plan.status == plan.status && outcome.plan.planId == plan.planId
    && outcome.plan.createdAt == plan.createdAt && outcome.plan.completedAt == plan.completedAt
  }

  /** A step starts exactly when everything it depends on is completed, whatever its own status. */
  lemma StartTells(plan: Plan, stepId: string, now: Time)
    ensures var outcome := StartStep(plan, stepId, now);
      && (outcome.error == None <==>
            exists i :: StandsFor(plan.steps, i, stepId)
              && forall d | d in plan.steps[i].dependsOn :: Done(plan.steps, d))
      && (outcome.error != None ==> outcome.plan == plan)
      && (outcome.error == Some(StepNotFound(stepId)) <==> forall i :: !StandsFor(plan.steps, i, stepId))
      && (outcome.error == None ==>
            exists i :: StandsFor(plan.steps, i, stepId) && ChangesStep(plan, outcome, i,
              plan.steps[i].(status := Running, startedAt := Some(now))))
  {
    FoundStandsFor(plan.steps, stepId);
    var found := FindStep(plan.steps, stepId);
    if found.Some? {
      forall d ensures Done(plan.steps, d) <==> IsCompleted(plan.steps, d) {
        DoneIsCompleted(plan.steps, d);
      }
      assert StandsFor(plan.steps, found.value, stepId);
    }
  }

  /** A step completes exactly when it carries an attestation or needs none, whatever its status and dependencies. */
  lemma CompleteTells(plan: Plan, stepId: string, now: Time)
    ensures var outcome := CompleteStep(plan, stepId, now);
      && (outcome.error == None <==>
            exists i :: StandsFor(plan.steps, i, stepId) &&
              (plan.steps[i].attestationRefs != []
               || (!plan.steps[i].stepType.EmitAttestation? && !plan.steps[i].requiresAttestation)))
      && (outcome.error != None ==> outcome.plan == plan)
      && (outcome.error == Some(StepNotFound(stepId)) <==> forall i :: !StandsFor(plan.steps, i, stepId))
      && (outcome.error == None ==>
            exists i :: StandsFor(plan.steps, i, stepId) && ChangesStep(plan, outcome, i,
              plan.steps[i].(status := Completed, completedAt := Some(now))))
  {
    FoundStandsFor(plan.steps, stepId);
    var found := FindStep(plan.steps, stepId);
    if found.Some? {
      assert StandsFor(plan.steps, found.value, stepId);
    }
  }

  /** A step fails whatever its status; a required one fails the plan too, unless that is completed or cancelled. */
  lemma FailTells(plan: Plan, stepId: string, reason: string)
    ensures var outcome := FailStep(plan, stepId, reason);
      && (outcome.error == Some(StepNotFound(stepId)) <==> forall i :: !StandsFor(plan.steps, i, stepId))
      && (outcome.error == Some(StepNotFound(stepId)) ==> outcome.plan == plan)
      && (outcome.error != Some(StepNotFound(stepId)) ==>
            exists i :: StandsFor(plan.steps, i, stepId)
              && outcome.plan == plan.(steps := outcome.plan.steps, status := outcome.plan.status)
              && ChangesStep(plan, Outcome(outcome.plan.(status := plan.status), None), i,
                   plan.steps[i].(status := Failed, failureReason := Some(reason)))
              && (outcome.plan.status ==
                    if !plan.steps[i].optional && plan.status != PlanCompleted && plan.status != Cancelled
                    then PlanFailed else plan.status)
              && (outcome.error == None <==>
                    plan.steps[i].optional || (plan.status != PlanCompleted && plan.status != Cancelled)))
  {
    FoundStandsFor(plan.steps, stepId);
    var found := FindStep(plan.steps, stepId);
    if found.Some? {
      assert StandsFor(plan.steps, found.value, stepId);
    }
  }

  /** How the operations on a whole plan move its status. */
  lemma PlanTells(plan: Plan, now: Time)
    ensures var outcome := StartPlan(plan);
      && (outcome.error == None <==> plan.status == PlanPlanned || plan.status == Paused)
      && outcome.plan == if outcome.error == None then plan.(status := PlanRunning) else plan
    ensures var outcome := PausePlan(plan);
      && (outcome.error == None <==> plan.status == PlanRunning)
      && outcome.plan == if outcome.error == None then plan.(status := Paused) else plan
    ensures var outcome := CompletePlan(plan, now);
      && (outcome.error == None <==>
            && plan.status != WaitingRemoteRuntime && plan.status != WaitingHumanReview
            && forall s | s in plan.steps :: s.optional || s.status == Completed)
      && outcome.plan ==
         if outcome.error == None then plan.(status := PlanCompleted, completedAt := Some(now)) else plan
    ensures var outcome := CancelPlan(plan, now);
      && (outcome.error == None <==> plan.status != PlanCompleted)
      && outcome.plan == if outcome.error == None then plan.(status := Cancelled, completedAt := Some(now)) else plan
    ensures var outcome := FailPlan(plan);
      && (outcome.error == None <==> plan.status != PlanCompleted && plan.status != Cancelled)
      && outcome.plan == if outcome.error == None then plan.(status := PlanFailed) else plan
  {
  }

  /** Attaching and requiring attestations change nothing else of the step. */
  lemma AttestationTells(plan: Plan, stepId: string, ref: string)
    ensures forall outcome | outcome in {AttachRef(plan, stepId, ref), RequireAttestation(plan, stepId)} ::
      && (outcome.error == None <==> exists i :: StandsFor(plan.steps, i, stepId))
      && (outcome.error != None ==> outcome.plan == plan)
    ensures AttachRef(plan, stepId, ref).error == None ==>
      exists i :: StandsFor(plan.steps, i, stepId) && ChangesStep(plan, AttachRef(plan, stepId, ref), i,
        plan.steps[i].(attestationRefs := plan.steps[i].attestationRefs + [ref]))
    ensures RequireAttestation(plan, stepId).error == None ==>
      exists i :: StandsFor(plan.steps, i, stepId) && ChangesStep(plan, RequireAttestation(plan, stepId), i,
        plan.steps[i].(requiresAttestation := true))
  {
    FoundStandsFor(plan.steps, stepId);
    var found := FindStep(plan.steps, stepId);
    if found.Some? {
      assert StandsFor(plan.steps, found.value, stepId);
    }
  }

  /** A step is added last, whatever it looks like. */
  lemma AddTells(plan: Plan, step: Step)
    ensures var outcome := AddStep(plan, step);
      && outcome.error == None && outcome.plan == plan.(steps := outcome.plan.steps)
      && |outcome.plan.steps| == |plan.steps| + 1 && outcome.plan.steps[|plan.steps|] == step
      && forall i | 0 <= i < |plan.steps| :: outcome.plan.steps[i] == plan.steps[i]
  {
  }

  // ---------- runs ----------

  datatype Op =
    | Start
    | Pause
    | Complete(now: Time)
    | Cancel(now: Time)
    | Fail
    | Add(step: Step)
    | StartAt(stepId: string, now: Time)
    | CompleteAt(stepId: string, now: Time)
    | FailAt(stepId: string, reason: string)
    | Attach(stepId: string, ref: string)
    | Require(stepId: string)

  function Do(plan: Plan, op: Op): Outcome {
    match op
    case Start => StartPlan(plan)
    case Pause => PausePlan(plan)
    case Complete(now) => CompletePlan(plan, now)
    case Cancel(now) => CancelPlan(plan, now)
    case Fail => FailPlan(plan)
    case Add(step) => AddStep(plan, step)
    case StartAt(stepId, now) => StartStep(plan, stepId, now)
    case CompleteAt(stepId, now) => CompleteStep(plan, stepId, now)
    case FailAt(stepId, reason) => FailStep(plan, stepId, reason)
    case Attach(stepId, ref) => AttachRef(plan, stepId, ref)
    case Require(stepId) => RequireAttestation(plan, stepId)
  }

  /** The plan after the first `n` operations. */
  function After(plan: Plan, ops: seq<Op>, n: nat): Plan
    requires n <= |ops|
  {
    if n == 0 then plan else Do(After(plan, ops, n - 1), ops[n - 1]).plan
  }

  predicate SucceedsAt(plan: Plan, ops: seq<Op>, k: nat)
    requires k < |ops|
  {
    Do(After(plan, ops, k), ops[k]).error.None?
  }

  /** Among the first `n` operations, a completion of a step under the id, or a completed step added under it. */
  ghost predicate CompletedBefore(plan: Plan, ops: seq<Op>, n: nat, stepId: string)
    requires n <= |ops|
  {
    exists k | 0 <= k < n ::
      || (ops[k].CompleteAt? && ops[k].stepId == stepId && SucceedsAt(plan, ops, k))
      || (ops[k].Add? && ops[k].step.stepId == stepId && ops[k].step.status == Completed)
  }

  /** One operation completes a step only by completing it or by adding it completed. */
  lemma StepDone(plan: Plan, op: Op, stepId: string)
    requires Done(Do(plan, op).plan.steps, stepId) && !Done(plan.steps, stepId)
    ensures (op.CompleteAt? && op.stepId == stepId && Do(plan, op).error.None?)
         || (op.Add? && op.step.stepId == stepId && op.step.status == Completed)
  {
    forall i | 0 <= i < |plan.steps| ensures plan.steps[i].stepId == stepId ==> plan.steps[i].status != Completed {
      assert plan.steps[i] in plan.steps;
    }
    match op
    case StartAt(id, now) => StartTells(plan, id, now);
    case CompleteAt(id, now) => CompleteTells(plan, id, now);
    case FailAt(id, reason) => FailTells(plan, id, reason);
    case Attach(id, ref) => AttestationTells(plan, id, ref);
    case Require(id) => AttestationTells(plan, id, "");
    case _ =>
  }

  /** What is completed was so from the beginning or was completed by an operation of the run. */
  lemma {:induction false} DoneBefore(plan: Plan, ops: seq<Op>, n: nat, stepId: string)
    requires n <= |ops| && Done(After(plan, ops, n).steps, stepId)
    ensures Done(plan.steps, stepId) || CompletedBefore(plan, ops, n, stepId)
  {
    if n > 0 {
      if Done(After(plan, ops, n - 1).steps, stepId) {
        DoneBefore(plan, ops, n - 1, stepId);
      } else {
        StepDone(After(plan, ops, n - 1), ops[n - 1], stepId);
      }
    }
  }

  /** Over any operations on a plan, a step is started only after everything it depends on was completed: at the outset,
      or by an earlier operation of the run. */
  lemma StartsFollowCompletions(plan: Plan, ops: seq<Op>, n: nat, i: nat, d: string)
    requires n < |ops| && ops[n].StartAt? && SucceedsAt(plan, ops, n)
    requires StandsFor(After(plan, ops, n).steps, i, ops[n].stepId)
    requires d in After(plan, ops, n).steps[i].dependsOn
    ensures Done(After(plan, ops, n).steps, d)
    ensures Done(plan.steps, d) || CompletedBefore(plan, ops, n, d)
  {
    var before := After(plan, ops, n);
    StartTells(before, ops[n].stepId, ops[n].now);
    var j :| StandsFor(before.steps, j, ops[n].stepId)
      && forall e | e in before.steps[j].dependsOn :: Done(before.steps, e);
    assert j == i;
    DoneBefore(plan, ops, n, d);
  }

  /** Starting checks what completing does not: any step without need of an attestation can be completed at once,
      started or not and whatever it depends on. */
  lemma CompletesUnstarted(plan: Plan, i: nat, now: Time)
    requires i < |plan.steps| && StandsFor(plan.steps, i, plan.steps[i].stepId)
    requires !plan.steps[i].stepType.EmitAttestation? && !plan.steps[i].requiresAttestation
    ensures var outcome := CompleteStep(plan, plan.steps[i].stepId, now);
      outcome.error == None && Done(outcome.plan.steps, plan.steps[i].stepId)
  {
    CompleteTells(plan, plan.steps[i].stepId, now);
    var outcome := CompleteStep(plan, plan.steps[i].stepId, now);
    assert StandsFor(plan.steps, i, plan.steps[i].stepId);
    var j :| StandsFor(plan.steps, j, plan.steps[i].stepId) && ChangesStep(plan, outcome, j,
      plan.steps[j].(status := Completed, completedAt := Some(now)));
    assert outcome.plan.steps[j] in outcome.plan.steps;
  }

  /** A completed plan stays completed whatever is done to it. */
  lemma {:induction false} CompletedIsFinal(plan: Plan, ops: seq<Op>, n: nat)
    requires n <= |ops| && plan.status == PlanCompleted
    ensures After(plan, ops, n).status == PlanCompleted
  {
    if n > 0 {
      CompletedIsFinal(plan, ops, n - 1);
      StatusMoves(After(plan, ops, n - 1), ops[n - 1]);
    }
  }

  /** What one operation makes of a plan's status. */
  lemma StatusMoves(plan: Plan, op: Op)
    ensures var next := Do(plan, op).plan.status;
      || next == plan.status
      || (op.Start? && plan.status in {PlanPlanned, Paused} && next == PlanRunning)
      || (op.Pause? && plan.status == PlanRunning && next == Paused)
      || (op.Complete? && next == PlanCompleted && plan.status !in {WaitingRemoteRuntime, WaitingHumanReview})
      || (op.Cancel? && plan.status != PlanCompleted && next == Cancelled)
      || ((op.Fail? || op.FailAt?) && plan.status !in {PlanCompleted, Cancelled} && next == PlanFailed)
  {
  }

  /** In every run a plan that became completed had every required step completed at that time. */
  lemma {:induction false} CompletedWithSteps(plan: Plan, ops: seq<Op>, n: nat)
    requires n <= |ops| && plan.status != PlanCompleted && After(plan, ops, n).status == PlanCompleted
    ensures exists k | 0 <= k < n ::
      ops[k].Complete? && forall s | s in After(plan, ops, k).steps :: s.optional || s.status == Completed
  {
    var before := After(plan, ops, n - 1);
    if before.status == PlanCompleted {
      CompletedWithSteps(plan, ops, n - 1);
    } else {
      StatusMoves(before, ops[n - 1]);
      PlanTells(before, ops[n - 1].now);
    }
  }
}
