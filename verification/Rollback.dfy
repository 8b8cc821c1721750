/** Assignment nodes: the variable is written once the assignment is acknowledged, and an
    iteration that fails puts back the value the variable had before it. */
module Rollback {
  import opened NodeConstants
  import opened Options
  import opened Conditions
  import opened NodeLogic
  import opened PlanMachine
  import opened PlanInvariant
  import opened Resources
  import opened Activation

  ghost predicate AssignmentOk(cfg: PlanConf, s: Plan, i: nat)
    requires Sized(cfg, s) && i < |cfg|
  {
    var n, before, x := s.nodes[i], s.hist[i].before, VariableOf(s, cfg[i].variable);
    && (i in s.toExecute ==> cfg[i].kind == Assignment && n.state == Executing && !n.ack)
    && (i in s.toRetract ==> cfg[i].kind == Assignment && n.state == Failing && !n.aborted)
    && (cfg[i].kind == Assignment ==>
          && (n.state == Executing ==>
                && x.saved == before
                && (if n.ack then x.value == n.fixedValue else x.value == before && i in s.toExecute)
                && (n.queue == StateChange ==> n.ack))
          && (n.state == Failing ==>
                && x.saved == before
                && (if n.aborted then x.value == before else i in s.toRetract)
                && (n.queue == StateChange ==> n.aborted)))
  }

  ghost predicate RollInv(cfg: PlanConf, s: Plan)
    requires Sized(cfg, s)
  {
    && (forall i | i in s.toExecute || i in s.toRetract :: i < |cfg|)
    && forall i: nat | i < |cfg| :: AssignmentOk(cfg, s, i)
  }

  /** An Assignment's completion and abort conditions are its own two flags. */
  lemma {:induction false} EnvOfAssignment(cfg: PlanConf, w: World, i: nat)
    requires WellFormed(cfg) && i < |cfg| && cfg[i].kind == Assignment
    ensures KnownTrue(Env(cfg, w, i), ActionComplete) <==> i in w.acks
    ensures KnownTrue(Env(cfg, w, i), AbortComplete) <==> i in w.aborts
    ensures SlotsOf(cfg, i)(ActionComplete).Some? && SlotsOf(cfg, i)(AbortComplete).Some?
  {
    UnwrappedSlot(cfg, i, ActionComplete);
    UnwrappedSlot(cfg, i, AbortComplete);
  }

  /** An Assignment leaves EXECUTING only acknowledged, and FAILING only undone. */
  lemma MovesOnlyWhenDone(cfg: PlanConf, s: Plan, i: nat)
    requires Inv(cfg, s) && i < |cfg| && cfg[i].kind == Assignment && Decide(cfg, s, i).Go?
    ensures s.nodes[i].state == Executing ==> s.nodes[i].ack
    ensures s.nodes[i].state == Failing ==> s.nodes[i].aborted
  {
    EnvOfAssignment(cfg, WorldOf(s), i);
  }

  lemma QueueStepKeepsRoll(cfg: PlanConf, s: Plan, step: Step)
    requires Inv(cfg, s) && RollInv(cfg, s) && Enabled(cfg, s, step) && (step.Check? || step.Resolve?)
    ensures Sized(cfg, Apply(cfg, s, step)) && RollInv(cfg, Apply(cfg, s, step))
  {
    var t := Apply(cfg, s, step);
    var i := step.node;
    assert NodeOk(cfg, s, i);
    if step.Check? { CheckShape(cfg, s, i); } else { ResolveShape(cfg, s, i); }
    QueuedOnlyIfDeciding(s.nodes[i], Decide(cfg, s, i), NeedsResources(cfg[i]), CanAcquire(cfg[i], s));
    if cfg[i].kind == Assignment && Decide(cfg, s, i).Go? {
      MovesOnlyWhenDone(cfg, s, i);
    }
    QueuedKeepsRoll(cfg, s, i, t);
  }

  /** Queueing a node that is done, or that is not queued for a move. */
  lemma QueuedKeepsRoll(cfg: PlanConf, s: Plan, i: nat, t: Plan)
    requires Inv(cfg, s) && RollInv(cfg, s) && Sized(cfg, t) && i < |cfg|
    requires t.nodes == s.nodes[i := t.nodes[i]] && |t.hist| == |s.hist|
    requires forall j | 0 <= j < |cfg| :: t.hist[j].before == s.hist[j].before
    requires t.vars == s.vars && t.toExecute == s.toExecute && t.toRetract == s.toRetract
    requires var n, m := s.nodes[i], t.nodes[i];
      && m.state == n.state && m.ack == n.ack && m.aborted == n.aborted && m.fixedValue == n.fixedValue
      && (m.queue == StateChange && cfg[i].kind == Assignment && n.queue != StateChange ==>
            (n.state == Executing ==> n.ack) && (n.state == Failing ==> n.aborted))
    ensures RollInv(cfg, t)
  {
    forall j: nat | j < |cfg| ensures AssignmentOk(cfg, t, j) {
      assert AssignmentOk(cfg, s, j);
    }
  }

  lemma QueuedOnlyIfDeciding(n: NodeRec, d: Decision, needs: bool, free: bool)
    ensures Checked(n, d, needs).queue == StateChange ==> d.Go?
    ensures Checked(n, d, needs).(status := n.status, queue := n.queue, next := n.next,
      nextOutcome := n.nextOutcome, nextFailure := n.nextFailure) == n
    ensures Resolved(n, d, free).(status := n.status, queue := n.queue, next := n.next,
      nextOutcome := n.nextOutcome, nextFailure := n.nextFailure) == n
  {
  }

  /** Steps that touch neither variables nor flags. */
  lemma QuietKeepsRoll(cfg: PlanConf, s: Plan, t: Plan)
    requires Inv(cfg, s) && RollInv(cfg, s) && Sized(cfg, t) && t.hist == s.hist
    requires t.vars == s.vars && t.toExecute == s.toExecute && t.toRetract == s.toRetract
    requires forall j | 0 <= j < |cfg| ::
      && Touched(s.nodes[j], t.nodes[j])
      && t.nodes[j].ack == s.nodes[j].ack && t.nodes[j].aborted == s.nodes[j].aborted
    ensures RollInv(cfg, t)
  {
    forall j: nat | j < |cfg| ensures AssignmentOk(cfg, t, j) {
      assert AssignmentOk(cfg, s, j) && NodeOk(cfg, s, j) && Touched(s.nodes[j], t.nodes[j]);
      TouchedQueue(cfg[j].parent.None?, s.nodes[j], t.nodes[j]);
    }
  }

  /** The activation counts of an Assignment's completion and abort conditions. */
  lemma {:induction false} FlagCounts(cfg: PlanConf, s: Plan, i: nat)
    requires Inv(cfg, s) && ActInv(cfg, s) && i < |cfg| && cfg[i].kind == Assignment
    ensures s.nodes[i].active(ActionComplete) == (if s.nodes[i].state == Executing then 1 else 0)
    ensures s.nodes[i].active(AbortComplete) == (if s.nodes[i].state == Failing then 1 else 0)
  {
    FlagCount(cfg, s, i, ActionComplete);
    FlagCount(cfg, s, i, AbortComplete);
    assert NodeOk(cfg, s, i);
  }

  lemma {:induction false} FlagCount(cfg: PlanConf, s: Plan, i: nat, k: CondIdx)
    requires Inv(cfg, s) && ActInv(cfg, s) && i < |cfg| && cfg[i].kind == Assignment
    requires k == ActionComplete || k == AbortComplete
    ensures s.nodes[i].active(k) == Count(Assignment, s.nodes[i].state, k)
  {
    assert CountOk(cfg, s, i, k);
    EnvOfAssignment(cfg, WorldOf(s), i);
  }

  /** performAssignments reaches the variable of no other running Assignment. */
  lemma ExecuteKeepsRoll(cfg: PlanConf, s: Plan, i: nat)
    requires Inv(cfg, s) && RollInv(cfg, s) && ResInv(cfg, s) && ActInv(cfg, s) && Enabled(cfg, s, Execute(i))
    ensures Sized(cfg, ExecuteNode(cfg, s, i)) && RollInv(cfg, ExecuteNode(cfg, s, i))
  {
    var t := ExecuteNode(cfg, s, i);
    assert AssignmentOk(cfg, s, i) && NodeOk(cfg, s, i);
    FlagCounts(cfg, s, i);
    forall j: nat | j < |cfg| ensures AssignmentOk(cfg, t, j) {
      assert AssignmentOk(cfg, s, j) && NodeOk(cfg, s, j);
      if j != i && HoldsVariable(cfg, s, j) {
        VariablesAreExclusive(cfg, s, i, j);
      }
    }
  }

  lemma RetractKeepsRoll(cfg: PlanConf, s: Plan, i: nat)
    requires Inv(cfg, s) && RollInv(cfg, s) && ResInv(cfg, s) && ActInv(cfg, s) && Enabled(cfg, s, Retract(i))
    ensures Sized(cfg, RetractNode(cfg, s, i)) && RollInv(cfg, RetractNode(cfg, s, i))
  {
    var t := RetractNode(cfg, s, i);
    assert AssignmentOk(cfg, s, i) && NodeOk(cfg, s, i);
    FlagCounts(cfg, s, i);
    forall j: nat | j < |cfg| ensures AssignmentOk(cfg, t, j) {
      assert AssignmentOk(cfg, s, j) && NodeOk(cfg, s, j);
      if j != i && HoldsVariable(cfg, s, j) {
        VariablesAreExclusive(cfg, s, i, j);
      }
    }
  }

  /** What committing node i does to variables and to the assignment queues. */
  ghost predicate AssignmentEffect(cfg: PlanConf, s: Plan, i: nat, rhs: Val, t: Plan)
    requires Sized(cfg, s) && Sized(cfg, t) && i < |cfg|
  {
    var n, m := s.nodes[i], t.nodes[i];
    && VariableEffect(cfg, s, i, m.state, t)
    && FlagEffect(cfg[i].kind, n, m, rhs)
    && forall j | 0 <= j < |cfg| && j != i ::
         t.nodes[j].ack == s.nodes[j].ack && t.nodes[j].aborted == s.nodes[j].aborted
  }

  lemma CommitAssignmentEffect(cfg: PlanConf, s: Plan, i: nat, rhs: Val)
    requires Sized(cfg, s) && i < |cfg| && s.nodes[i].next.Some?
    ensures Sized(cfg, CommitNode(cfg, s, i, rhs)) && AssignmentEffect(cfg, s, i, rhs, CommitNode(cfg, s, i, rhs))
  {
    CommitFrame(cfg, s, i, rhs);
    CommitVariables(cfg, s, i, rhs);
    var t := CommitNode(cfg, s, i, rhs);
    CommittedHasMoved(cfg[i].kind, cfg[i].parent.None?, SlotsOf(cfg, i), s.nodes[i], rhs);
    EffectFollows(cfg, s, i, rhs, t);
  }

  lemma {:induction false} CommitVariables(cfg: PlanConf, s: Plan, i: nat, rhs: Val)
    requires Sized(cfg, s) && i < |cfg| && s.nodes[i].next.Some?
    ensures Sized(cfg, CommitNode(cfg, s, i, rhs))
    ensures VariableEffect(cfg, s, i, s.nodes[i].next.value, CommitNode(cfg, s, i, rhs))
  {
  }

  ghost predicate VariableEffect(cfg: PlanConf, s: Plan, i: nat, to: NodeState, t: Plan)
    requires Sized(cfg, s) && Sized(cfg, t) && i < |cfg|
  {
    var x := VariableOf(s, cfg[i].variable);
    var starts := cfg[i].kind == Assignment && to == Executing;
    && t.hist[i].before == (if to == Executing then x.value else s.hist[i].before)
    && t.vars == (if starts then s.vars[cfg[i].variable := x.(saved := x.value)] else s.vars)
    && t.toExecute == (if starts then s.toExecute + {i} else s.toExecute)
    && t.toRetract == (if cfg[i].kind == Assignment && to == Failing then s.toRetract + {i} else s.toRetract)
  }

  lemma {:induction false} EffectFollows(cfg: PlanConf, s: Plan, i: nat, rhs: Val, t: Plan)
    requires Sized(cfg, s) && Sized(cfg, t) && i < |cfg| && s.nodes[i].next.Some?
    requires VariableEffect(cfg, s, i, s.nodes[i].next.value, t)
    requires FlagEffect(cfg[i].kind, s.nodes[i], t.nodes[i], rhs) && t.nodes[i].state == s.nodes[i].next.value
    requires forall j | 0 <= j < |cfg| && j != i ::
      t.nodes[j] == Woken(IsChild(cfg, j, i), s.nodes[i].next.value, s.nodes[j])
    ensures AssignmentEffect(cfg, s, i, rhs, t)
  {
  }

  lemma CommitKeepsRoll(cfg: PlanConf, s: Plan, i: nat, rhs: Val, t: Plan)
    requires Inv(cfg, s) && RollInv(cfg, s) && ResInv(cfg, s)
    requires ActInv(cfg, s) && i < |cfg| && s.nodes[i].queue == StateChange
    requires CommitEffect(cfg, s, i, t) && AssignmentEffect(cfg, s, i, rhs, t)
    ensures RollInv(cfg, t)
  {
    forall j: nat | j < |cfg| ensures AssignmentOk(cfg, t, j) {
      if j == i {
        CommittedAssignment(cfg, s, i, rhs, t);
      } else {
        OtherAssignment(cfg, s, i, rhs, t, j);
      }
    }
  }

  lemma CommittedAssignment(cfg: PlanConf, s: Plan, i: nat, rhs: Val, t: Plan)
    requires Inv(cfg, s) && RollInv(cfg, s) && ActInv(cfg, s) && i < |cfg| && s.nodes[i].queue == StateChange
    requires CommitEffect(cfg, s, i, t) && AssignmentEffect(cfg, s, i, rhs, t)
    ensures AssignmentOk(cfg, t, i)
  {
    assert AssignmentOk(cfg, s, i) && NodeOk(cfg, s, i);
    if cfg[i].kind == Assignment { FlagCounts(cfg, s, i); }
  }

  lemma OtherAssignment(cfg: PlanConf, s: Plan, i: nat, rhs: Val, t: Plan, j: nat)
    requires Inv(cfg, s) && RollInv(cfg, s) && ResInv(cfg, s) && i < |cfg| && s.nodes[i].queue == StateChange
    requires CommitEffect(cfg, s, i, t) && AssignmentEffect(cfg, s, i, rhs, t)
    requires j < |cfg| && j != i
    ensures AssignmentOk(cfg, t, j)
  {
    assert AssignmentOk(cfg, s, j) && NodeOk(cfg, s, j) && Touched(s.nodes[j], t.nodes[j]);
    TouchedQueue(cfg[j].parent.None?, s.nodes[j], t.nodes[j]);
    if cfg[i].kind == Assignment && t.nodes[i].state == Executing && HoldsVariable(cfg, s, j) {
      assert NodeOk(cfg, s, i);
      VariablesAreExclusive(cfg, s, i, j);
    }
  }

  lemma StepKeepsRoll(cfg: PlanConf, s: Plan, step: Step)
    requires Inv(cfg, s) && RollInv(cfg, s) && ResInv(cfg, s) && ActInv(cfg, s) && Enabled(cfg, s, step)
    ensures Sized(cfg, Apply(cfg, s, step)) && RollInv(cfg, Apply(cfg, s, step))
  {
    match step {
      case Commit(i, rhs) => MoveKeepsRoll(cfg, s, i, rhs);
      case Execute(i) => ExecuteKeepsRoll(cfg, s, i);
      case Retract(i) => RetractKeepsRoll(cfg, s, i);
      case Check(_) => QueueStepKeepsRoll(cfg, s, step);
      case Resolve(_) => QueueStepKeepsRoll(cfg, s, step);
      case _ => TouchKeepsRoll(cfg, s, step);
    }
  }

  lemma MoveKeepsRoll(cfg: PlanConf, s: Plan, i: nat, rhs: Val)
    requires Inv(cfg, s) && RollInv(cfg, s) && ResInv(cfg, s) && ActInv(cfg, s) && Enabled(cfg, s, Commit(i, rhs))
    ensures Sized(cfg, CommitNode(cfg, s, i, rhs)) && RollInv(cfg, CommitNode(cfg, s, i, rhs))
  {
    CommitShape(cfg, s, i, rhs);
    CommitAssignmentEffect(cfg, s, i, rhs);
    CommitKeepsRoll(cfg, s, i, rhs, CommitNode(cfg, s, i, rhs));
  }

  lemma TouchKeepsRoll(cfg: PlanConf, s: Plan, step: Step)
    requires Inv(cfg, s) && RollInv(cfg, s) && Enabled(cfg, s, step) && OnlyTouches(step)
    requires !step.Execute? && !step.Retract?
    ensures Sized(cfg, Apply(cfg, s, step)) && RollInv(cfg, Apply(cfg, s, step))
  {
    TouchShape(cfg, s, step);
    QuietKeepsRoll(cfg, s, Apply(cfg, s, step));
  }

  /** When an Assignment's iteration ends, its variable holds the assigned value if the
      iteration did not fail, and the value from before the iteration if it did; and a
      failing iteration had been acknowledged first. */
  lemma IterationEndsRolledBackOrAssigned(cfg: PlanConf, s: Plan, i: nat, rhs: Val)
    requires Inv(cfg, s) && RollInv(cfg, s) && Enabled(cfg, s, Commit(i, rhs)) && cfg[i].kind == Assignment
    ensures var t, v := CommitNode(cfg, s, i, rhs), cfg[i].variable;
      && (s.nodes[i].state == Failing ==> VariableOf(t, v).value == s.hist[i].before)
      && (s.nodes[i].state == Executing ==>
            && s.nodes[i].ack
            && (t.nodes[i].state == IterationEnded ==> VariableOf(t, v).value == s.nodes[i].fixedValue))
      && (t.nodes[i].state == Executing ==>
            t.hist[i].before == VariableOf(s, v).value && t.nodes[i].fixedValue == rhs)
      && (t.nodes[i].state != Executing ==> t.hist[i].before == s.hist[i].before)
  {
    assert AssignmentOk(cfg, s, i) && NodeOk(cfg, s, i);
    CommitShape(cfg, s, i, rhs);
    CommitAssignmentEffect(cfg, s, i, rhs);
  }

  // ----- from the start of an iteration to its end -----

  /** As long as node i does not start again, it is remembered what it is to assign and to undo. */
  ghost predicate Remembers(s: Plan, t: Plan, i: nat) {
    && i < |s.nodes| == |s.hist| && i < |t.nodes| == |t.hist|
    && s.hist[i].executions <= t.hist[i].executions
    && (s.hist[i].executions == t.hist[i].executions ==>
          t.hist[i].before == s.hist[i].before && t.nodes[i].fixedValue == s.nodes[i].fixedValue)
  }

  lemma {:induction false} StepRemembers(cfg: PlanConf, s: Plan, step: Step, i: nat)
    requires Inv(cfg, s) && Enabled(cfg, s, step) && i < |cfg|
    ensures Remembers(s, Apply(cfg, s, step), i)
  {
    match step {
      case Commit(j, rhs) => CommitRemembers(cfg, s, j, rhs, i);
      case Check(j) =>
        CheckShape(cfg, s, j);
        QueuedOnlyIfDeciding(s.nodes[j], Decide(cfg, s, j), NeedsResources(cfg[j]), CanAcquire(cfg[j], s));
      case Resolve(j) =>
        ResolveShape(cfg, s, j);
        QueuedOnlyIfDeciding(s.nodes[j], Decide(cfg, s, j), NeedsResources(cfg[j]), CanAcquire(cfg[j], s));
      case _ =>
        TouchShape(cfg, s, step);
        assert Touched(s.nodes[i], Apply(cfg, s, step).nodes[i]);
    }
  }

  lemma {:induction false} CommitRemembers(cfg: PlanConf, s: Plan, j: nat, rhs: Val, i: nat)
    requires Inv(cfg, s) && Enabled(cfg, s, Commit(j, rhs)) && i < |cfg|
    ensures Remembers(s, CommitNode(cfg, s, j, rhs), i)
  {
    CommitShape(cfg, s, j, rhs);
    CommitAssignmentEffect(cfg, s, j, rhs);
    assert i != j ==> Touched(s.nodes[i], CommitNode(cfg, s, j, rhs).nodes[i]);
  }

  lemma {:induction false} RunRemembers(cfg: PlanConf, s: Plan, steps: seq<Step>, t: Plan, i: nat)
    requires Inv(cfg, s) && IsRun(cfg, s, steps, t) && i < |cfg|
    ensures Remembers(s, t, i)
    decreases |steps|
  {
    if steps != [] {
      StepRemembers(cfg, s, steps[0], i);
      StepKeepsInv(cfg, s, steps[0]);
      RunRemembers(cfg, Apply(cfg, s, steps[0]), steps[1..], t, i);
    }
  }

  // ----- queued work -----

  /** What is queued for execution and for retraction, and that performing it is noticed. */
  lemma {:induction false} WorkRaisesFlags(cfg: PlanConf, s: Plan, i: nat)
    requires Inv(cfg, s) && RollInv(cfg, s) && ActInv(cfg, s)
    ensures Enabled(cfg, s, Execute(i)) ==>
      ExecuteNode(cfg, s, i).nodes[i] == Notified(s.nodes[i].(ack := true)) && s.nodes[i].state == Executing
    ensures Enabled(cfg, s, Retract(i)) ==>
      RetractNode(cfg, s, i).nodes[i] == Notified(s.nodes[i].(aborted := true)) && s.nodes[i].state == Failing
  {
    if Enabled(cfg, s, Execute(i)) || Enabled(cfg, s, Retract(i)) {
      assert AssignmentOk(cfg, s, i);
      FlagCounts(cfg, s, i);
    }
  }
}
