/** Structured iteration: a list that only ends when its children have finished, and
    that nothing can interrupt, runs its children strictly inside its own iterations. */
module StructuredIteration {
  import opened NodeConstants
  import opened Options
  import opened Conditions
  import opened NodeLogic
  import opened PlanMachine
  import opened PlanInvariant
  import opened WakeUp

  /** No End condition of its own, and no Exit or Invariant on it or on any ancestor. */
  ghost predicate Structured(cfg: PlanConf, l: nat) {
    l < |cfg| && cfg[l].kind == List && End !in cfg[l].user && !MayInterrupt(cfg, l)
  }

  /** The state of a child against that of its structured list, between micro-steps. */
  predicate InStep(list: NodeState, listFailure: FailureType, child: NodeState) {
    && list != Failing
    && (child != Inactive && child != Finished ==> list == Executing)
    && (list == Finishing ==> child == Finished)
    && (list == IterationEnded ==> child == if listFailure == PreConditionFailed then Inactive else Finished)
  }

  // ----- woken children are all evaluated within the micro-step -----

  /** A child that the snapshot obliges to move is queued for its move, has made it, or is
      still to be evaluated. */
  ghost predicate WokenOk(cfg: PlanConf, s: Plan, c: nat)
    requires Sized(cfg, s) && c < |cfg|
  {
    cfg[c].parent.Some? && cfg[c].parent.value < |cfg| && Wakes(s.snap[cfg[c].parent.value], s.snap[c]) ==>
      || s.nodes[c].queue == StateChange
      || (s.phase == Committing && s.nodes[c].state != s.snap[c])
      || (s.phase == Checking && s.nodes[c].queue == Candidates)
  }

  predicate InMicroStep(s: Plan) {
    s.phase == Checking || s.phase == Resolving || s.phase == Committing
  }

  ghost predicate WokenInv(cfg: PlanConf, s: Plan)
    requires Sized(cfg, s)
  {
    InMicroStep(s) ==> forall c: nat | c < |cfg| :: WokenOk(cfg, s, c)
  }

  lemma StepKeepsWoken(cfg: PlanConf, s: Plan, step: Step)
    requires Inv(cfg, s) && WakeInv(cfg, s) && WokenInv(cfg, s) && Enabled(cfg, s, step)
    ensures Sized(cfg, Apply(cfg, s, step)) && WokenInv(cfg, Apply(cfg, s, step))
  {
    match step {
      case Check(i) => CheckShape(cfg, s, i);
      case Resolve(i) => ResolveShape(cfg, s, i);
      case Commit(i, rhs) => CommitShape(cfg, s, i, rhs);
      case _ => TouchShape(cfg, s, step);
    }
    if InMicroStep(Apply(cfg, s, step)) {
      forall c: nat | c < |cfg| ensures WokenOk(cfg, Apply(cfg, s, step), c) {
        if step.Check? || step.Resolve? || step.Commit? {
          MoveKeepsWoken(cfg, s, step, c);
        } else {
          TouchStepKeepsWoken(cfg, s, step, c);
        }
      }
    }
  }

  lemma MoveKeepsWoken(cfg: PlanConf, s: Plan, step: Step, c: nat)
    requires Inv(cfg, s) && WokenInv(cfg, s) && Enabled(cfg, s, step) && c < |cfg|
    requires step.Check? || step.Resolve? || step.Commit?
    ensures Sized(cfg, Apply(cfg, s, step)) && WokenOk(cfg, Apply(cfg, s, step), c)
  {
    assert NodeOk(cfg, s, c) && WokenOk(cfg, s, c);
    match step {
      case Check(i) =>
        CheckShape(cfg, s, i);
        CheckKeepsWoken(cfg, s, i, c);
      case Resolve(i) => ResolveShape(cfg, s, i);
      case Commit(i, rhs) =>
        CommitShape(cfg, s, i, rhs);
        if c != i { TouchedStaysWoken(cfg, s, Apply(cfg, s, step), c); }
    }
  }

  lemma TouchStepKeepsWoken(cfg: PlanConf, s: Plan, step: Step, c: nat)
    requires Inv(cfg, s) && WakeInv(cfg, s) && WokenInv(cfg, s) && Enabled(cfg, s, step) && c < |cfg|
    requires OnlyTouches(step) && InMicroStep(Apply(cfg, s, step))
    ensures Sized(cfg, Apply(cfg, s, step)) && WokenOk(cfg, Apply(cfg, s, step), c)
  {
    var t := Apply(cfg, s, step);
    TouchShape(cfg, s, step);
    if step.Begin? || step.Again? {
      StartsWoken(cfg, s, t, c);
    } else if step.Notify? || step.ResourceFreed? {
      assert WokenOk(cfg, s, c);
      TouchedStaysWoken(cfg, s, t, c);
    } else if InMicroStep(s) {
      assert WokenOk(cfg, s, c);
    }
  }

  lemma StartsWoken(cfg: PlanConf, s: Plan, t: Plan, c: nat)
    requires Inv(cfg, s) && WakeInv(cfg, s) && c < |cfg|
    requires s.phase == Idle || (s.phase == Committing && NoneIn(s, StateChange))
    requires Sized(cfg, t) && t.nodes == s.nodes && t.phase == Checking && t.snap == StatesOf(s)
    ensures WokenOk(cfg, t, c)
  {
  }

  lemma CheckKeepsWoken(cfg: PlanConf, s: Plan, i: nat, c: nat)
    requires Inv(cfg, s) && WokenInv(cfg, s) && Enabled(cfg, s, Check(i)) && c < |cfg|
    ensures WokenOk(cfg, CheckNode(cfg, s, i), c)
  {
    assert WokenOk(cfg, s, c) && NodeOk(cfg, s, c) && NodeWellFormed(cfg, c);
    CheckShape(cfg, s, i);
    if c == i && cfg[c].parent.Some? && Wakes(s.snap[cfg[c].parent.value], s.snap[c]) {
      assert NodeOk(cfg, s, cfg[c].parent.value);
      assert NeedsWake(cfg, s, c);
      WokenChildMoves(cfg, s, c);
    }
  }

  lemma TouchedStaysWoken(cfg: PlanConf, s: Plan, t: Plan, c: nat)
    requires Inv(cfg, s) && Sized(cfg, t) && c < |cfg|
    requires WokenOk(cfg, s, c) && t.snap == s.snap && t.phase == s.phase
    requires Touched(s.nodes[c], t.nodes[c])
    ensures WokenOk(cfg, t, c)
  {
    assert NodeOk(cfg, s, c);
    TouchedQueue(cfg[c].parent.None?, s.nodes[c], t.nodes[c]);
  }

  // ----- the structured lists -----

  /** The relation on the snapshot; in ITERATION_ENDED it is kept for lists that are
      still there. */
  ghost predicate SnapInStep(s: Plan, l: nat, c: nat)
    requires l < |s.nodes| == |s.snap| && c < |s.nodes|
  {
    && s.snap[l] != Failing
    && (s.snap[c] != Inactive && s.snap[c] != Finished ==> s.snap[l] == Executing)
    && (s.snap[l] == Finishing ==> s.snap[c] == Finished)
    && (s.snap[l] == IterationEnded && s.nodes[l].state == IterationEnded ==>
          s.snap[c] == if s.nodes[l].failure == PreConditionFailed then Inactive else Finished)
  }

  ghost predicate ListOk(cfg: PlanConf, s: Plan, l: nat, c: nat)
    requires Sized(cfg, s) && l < |cfg| && c < |cfg|
  {
    if InMicroStep(s) then SnapInStep(s, l, c)
    else InStep(s.nodes[l].state, s.nodes[l].failure, s.nodes[c].state)
  }

  ghost predicate StructureInv(cfg: PlanConf, s: Plan)
    requires Sized(cfg, s)
  {
    forall l: nat, c: nat {:trigger ListOk(cfg, s, l, c)} |
      Structured(cfg, l) && IsChild(cfg, c, l) :: ListOk(cfg, s, l, c)
  }

  /** Within a micro-step the list and its child have moved only as the snapshot allows. */
  lemma MidStep(cfg: PlanConf, s: Plan, l: nat, c: nat)
    requires Inv(cfg, s) && WokenInv(cfg, s) && InMicroStep(s)
    requires Structured(cfg, l) && IsChild(cfg, c, l) && SnapInStep(s, l, c)
    ensures var list, child := s.nodes[l], s.nodes[c];
      && list.state != Failing
      && (child.state != Inactive && child.state != Finished ==> list.state == Executing)
      && (list.state == Finishing ==> child.state == Finished)
      && (list.state == IterationEnded && list.failure != PreConditionFailed ==> child.state == Finished)
      && (list.state == IterationEnded && list.failure == PreConditionFailed ==>
            child.state == Inactive || ResetQueued(s, c))
      && (list.state == Executing && s.snap[l] == Waiting ==> child.state == Inactive || ResetQueued(s, c))
  {
    assert NodeOk(cfg, s, l) && NodeOk(cfg, s, c) && WokenOk(cfg, s, c);
  }

  /** The child's move from FINISHED to INACTIVE waits in the queue. */
  predicate ResetQueued(s: Plan, c: nat)
    requires c < |s.nodes|
  {
    s.nodes[c].state == Finished && (s.nodes[c].queue == StateChange || s.nodes[c].queue == Candidates)
  }

  lemma StepEndsInStep(cfg: PlanConf, s: Plan, l: nat, c: nat)
    requires Inv(cfg, s) && WokenInv(cfg, s) && StructureInv(cfg, s)
    requires s.phase == Committing && NoneIn(s, StateChange)
    requires Structured(cfg, l) && IsChild(cfg, c, l)
    ensures InStep(s.nodes[l].state, s.nodes[l].failure, s.nodes[c].state)
    ensures s.nodes[l].state == Executing && s.snap[l] == Waiting ==> s.nodes[c].state == Inactive
  {
    assert ListOk(cfg, s, l, c);
    MidStep(cfg, s, l, c);
    assert NodeOk(cfg, s, l) && NodeOk(cfg, s, c) && WokenOk(cfg, s, c);
  }

  lemma StepKeepsStructure(cfg: PlanConf, s: Plan, step: Step)
    requires Inv(cfg, s) && WokenInv(cfg, s) && StructureInv(cfg, s) && Enabled(cfg, s, step)
    ensures Sized(cfg, Apply(cfg, s, step)) && StructureInv(cfg, Apply(cfg, s, step))
  {
    StepKeepsInv(cfg, s, step);
    forall l: nat, c: nat | Structured(cfg, l) && IsChild(cfg, c, l)
      ensures ListOk(cfg, Apply(cfg, s, step), l, c)
    {
      StepKeepsList(cfg, s, step, l, c);
    }
  }

  lemma StepKeepsList(cfg: PlanConf, s: Plan, step: Step, l: nat, c: nat)
    requires Inv(cfg, s) && WokenInv(cfg, s) && StructureInv(cfg, s) && Enabled(cfg, s, step)
    requires Structured(cfg, l) && IsChild(cfg, c, l)
    ensures Sized(cfg, Apply(cfg, s, step)) && ListOk(cfg, Apply(cfg, s, step), l, c)
  {
    assert ListOk(cfg, s, l, c);
    StepPhase(cfg, s, step);
    if s.phase == Committing && NoneIn(s, StateChange) && (step.Again? || step.EndLoop?) {
      StepEndsInStep(cfg, s, l, c);
    } else if !step.Begin? {
      ListSettled(cfg, s, step, l);
      ListSettled(cfg, s, step, c);
    }
  }

  /** What the step does to phase and snapshot. */
  lemma StepPhase(cfg: PlanConf, s: Plan, step: Step)
    requires Inv(cfg, s) && Enabled(cfg, s, step)
    ensures var t := Apply(cfg, s, step);
      && Sized(cfg, t) && |t.nodes| == |s.nodes|
      && (if step.Begin? || step.Again? then t.snap == StatesOf(s) && t.nodes == s.nodes && t.phase == Checking
          else t.snap == s.snap && (InMicroStep(t) == InMicroStep(s) || (step.EndLoop? && t.nodes == s.nodes)))
  {
    match step {
      case Check(i) => CheckShape(cfg, s, i);
      case Resolve(i) => ResolveShape(cfg, s, i);
      case Commit(i, rhs) => CommitShape(cfg, s, i, rhs);
      case _ => TouchShape(cfg, s, step);
    }
  }

  /** Unless it commits, a node keeps its state and failure type; and committing never
      leaves a node in ITERATION_ENDED where it was. */
  lemma ListSettled(cfg: PlanConf, s: Plan, step: Step, j: nat)
    requires Inv(cfg, s) && Enabled(cfg, s, step) && j < |cfg|
    ensures Sized(cfg, Apply(cfg, s, step))
    ensures var n, m := s.nodes[j], Apply(cfg, s, step).nodes[j];
      || (m.state == n.state && m.failure == n.failure)
      || (s.phase == Committing && s.snap[j] == n.state != m.state)
  {
    assert NodeOk(cfg, s, j);
    var t := Apply(cfg, s, step);
    match step {
      case Check(i) => CheckShape(cfg, s, i);
      case Resolve(i) => TurnSettles(cfg, s, i, j);
      case Commit(i, rhs) =>
        CommitShape(cfg, s, i, rhs);
        if j != i { assert Touched(s.nodes[j], t.nodes[j]); }
      case _ =>
        TouchShape(cfg, s, step);
        assert Touched(s.nodes[j], t.nodes[j]);
    }
  }

  lemma TurnSettles(cfg: PlanConf, s: Plan, i: nat, j: nat)
    requires Sized(cfg, s) && i < |cfg| && j < |cfg|
    ensures var t := ResolveNode(cfg, s, i);
      Sized(cfg, t) && t.nodes[j].state == s.nodes[j].state && t.nodes[j].failure == s.nodes[j].failure
  {
    ResolveShape(cfg, s, i);
    ResolvedFailure(cfg, s, i);
  }

  lemma ResolvedFailure(cfg: PlanConf, s: Plan, i: nat)
    requires Sized(cfg, s) && i < |cfg|
    ensures ResolveNode(cfg, s, i).nodes[i].failure == s.nodes[i].failure
  {
  }
}
