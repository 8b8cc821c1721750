/** Why a queued move records the outcome and failure type it does: its cause holds in the values of
    the micro-step in which it is committed. */
module RecordedOutcomes {
  import opened NodeConstants
  import opened Options
  import opened Conditions
  import opened NodeLogic
  import opened PlanMachine
  import opened PlanInvariant
  import opened Decisions

  /** The world as far as the authors' conditions go. */
  function Values(s: Plan): World {
    World([], s.values, map[], {}, {})
  }

  lemma SameValues(cfg: PlanConf, s: Plan, i: nat, u: CondIdx, v: Tri)
    requires i < |cfg|
    ensures SomeAncestorIs(cfg, WorldOf(s), i, u, v) == SomeAncestorIs(cfg, Values(s), i, u, v)
    ensures Says(cfg, WorldOf(s), i, u, v) == Says(cfg, Values(s), i, u, v)
    ensures Fulfilled(cfg, WorldOf(s), i, u) == Fulfilled(cfg, Values(s), i, u)
  {
    assert forall a: nat :: UserValue(WorldOf(s), a, u) == UserValue(Values(s), a, u);
  }

  ghost predicate Skipping(cfg: PlanConf, w: World, i: nat)
    requires i < |cfg|
  {
    || SomeAncestorIs(cfg, w, i, Exit, True) || Says(cfg, w, i, Exit, True)
    || SomeAncestorIs(cfg, w, i, Invariant, False) || SomeAncestorIs(cfg, w, i, End, True)
    || Says(cfg, w, i, Skip, True)
  }

  /** What the values say when a node at work records a failure type, or success. */
  ghost predicate StopCause(cfg: PlanConf, w: World, i: nat, o: Outcome, f: FailureType)
    requires i < |cfg|
  {
    var exit, failed := SomeAncestorIs(cfg, w, i, Exit, True), SomeAncestorIs(cfg, w, i, Invariant, False);
    && (f == ParentExited ==> exit)
    && (f == Exited ==> !exit && Says(cfg, w, i, Exit, True))
    && (f == ParentFailed ==> !exit && !Says(cfg, w, i, Exit, True) && failed)
    && (f == InvariantConditionFailed ==>
          !exit && !Says(cfg, w, i, Exit, True) && !failed && Says(cfg, w, i, Invariant, False))
    && (f == PostConditionFailed ==> Undisturbed(cfg, w, i) && !Fulfilled(cfg, w, i, Post))
    && (o == Success ==> Undisturbed(cfg, w, i) && Fulfilled(cfg, w, i, Post))
    && o != Skipped && f != PreConditionFailed
  }

  /** And when an ended iteration is followed by another, or is the last. */
  ghost predicate EndCause(cfg: PlanConf, w: World, i: nat, to: NodeState, o: Outcome, f: FailureType)
    requires i < |cfg|
  {
    var exit, failed := SomeAncestorIs(cfg, w, i, Exit, True), SomeAncestorIs(cfg, w, i, Invariant, False);
    var ended := SomeAncestorIs(cfg, w, i, End, True);
    && (o == NoOutcome ==> !exit && !failed && f == NoFailure)
    && (o != NoOutcome ==>
          (exit && o == Interrupted && f == ParentExited)
          || (!exit && failed && o == Outcome.Failure && f == ParentFailed))
    && (if to == Waiting then o == NoOutcome && !ended && Says(cfg, w, i, Repeat, True)
        else o == NoOutcome ==> ended || Repeat !in cfg[i].user || Says(cfg, w, i, Repeat, False))
  }

  ghost predicate Cause(cfg: PlanConf, w: World, i: nat, from: NodeState, to: NodeState, o: Outcome, f: FailureType)
    requires i < |cfg|
  {
    match from
    case Waiting =>
      && (to == Finished ==> o == Skipped && Skipping(cfg, w, i))
      && (to == IterationEnded ==>
            && o == Outcome.Failure && f == PreConditionFailed
            && !Skipping(cfg, w, i) && Fulfilled(cfg, w, i, Start) && !Fulfilled(cfg, w, i, Pre))
    case Executing => StopCause(cfg, w, i, o, f)
    case Finishing => StopCause(cfg, w, i, o, f)
    case IterationEnded => EndCause(cfg, w, i, to, o, f)
    case _ => true
  }

  ghost predicate CauseOk(cfg: PlanConf, s: Plan, i: nat)
    requires Sized(cfg, s) && i < |cfg|
  {
    var n := s.nodes[i];
    n.queue == StateChange && n.next.Some? ==>
      Cause(cfg, Values(s), i, n.state, n.next.value, n.nextOutcome, n.nextFailure)
  }

  ghost predicate CauseInv(cfg: PlanConf, s: Plan)
    requires Sized(cfg, s)
  {
    forall i: nat | i < |cfg| :: CauseOk(cfg, s, i)
  }

  // ----- a decision has its cause -----

  lemma {:induction false} DecisionHasCause(cfg: PlanConf, s: Plan, i: nat)
    requires At(cfg, s, i) && Decide(cfg, s, i).Go?
    ensures var d := Decide(cfg, s, i); Cause(cfg, WorldOf(s), i, s.nodes[i].state, d.to, d.outcome, d.failure)
  {
    match s.nodes[i].state {
      case Waiting => WaitingDecides(cfg, s, i);
      case Executing => WorkHasCause(cfg, s, i);
      case Finishing => WorkHasCause(cfg, s, i);
      case IterationEnded => IterationEndedDecides(cfg, s, i);
      case _ =>
    }
  }

  lemma {:induction false} WorkHasCause(cfg: PlanConf, s: Plan, i: nat)
    requires At(cfg, s, i) && (s.nodes[i].state == Executing || s.nodes[i].state == Finishing)
    requires Decide(cfg, s, i).Go?
    ensures StopCause(cfg, WorldOf(s), i, Decide(cfg, s, i).outcome, Decide(cfg, s, i).failure)
  {
    if s.nodes[i].state == Executing && cfg[i].kind == Assignment && !s.nodes[i].ack {
      UnacknowledgedStays(cfg, s, i);
      assert false;
    }
    InterruptionsDecide(cfg, s, i);
    if Undisturbed(cfg, WorldOf(s), i) {
      if s.nodes[i].state == Executing { ExecutingDecides(cfg, s, i); } else { FinishingDecides(cfg, s, i); }
    }
  }

  lemma {:induction false} SameCause(cfg: PlanConf, s: Plan, i: nat, from: NodeState, to: NodeState, o: Outcome,
                                     f: FailureType)
    requires i < |cfg|
    ensures Cause(cfg, WorldOf(s), i, from, to, o, f) == Cause(cfg, Values(s), i, from, to, o, f)
  {
    match from {
      case Waiting => SameSkipping(cfg, s, i); SameTests(cfg, s, i);
      case Executing => SameStop(cfg, s, i, o, f);
      case Finishing => SameStop(cfg, s, i, o, f);
      case IterationEnded => SameEnd(cfg, s, i, to, o, f);
      case _ =>
    }
  }

  lemma {:induction false} SameEnd(cfg: PlanConf, s: Plan, i: nat, to: NodeState, o: Outcome, f: FailureType)
    requires i < |cfg|
    ensures EndCause(cfg, WorldOf(s), i, to, o, f) == EndCause(cfg, Values(s), i, to, o, f)
  {
    SameValues(cfg, s, i, Exit, True);
    SameValues(cfg, s, i, Invariant, False);
    SameValues(cfg, s, i, End, True);
    SameValues(cfg, s, i, Repeat, True);
    SameValues(cfg, s, i, Repeat, False);
  }

  lemma {:induction false} SameTests(cfg: PlanConf, s: Plan, i: nat)
    requires i < |cfg|
    ensures Fulfilled(cfg, WorldOf(s), i, Start) == Fulfilled(cfg, Values(s), i, Start)
    ensures Fulfilled(cfg, WorldOf(s), i, Pre) == Fulfilled(cfg, Values(s), i, Pre)
  {
    SameValues(cfg, s, i, Start, True);
    SameValues(cfg, s, i, Pre, True);
  }

  lemma {:induction false} SameSkipping(cfg: PlanConf, s: Plan, i: nat)
    requires i < |cfg|
    ensures Skipping(cfg, WorldOf(s), i) == Skipping(cfg, Values(s), i)
  {
    SameValues(cfg, s, i, Exit, True);
    SameValues(cfg, s, i, Invariant, False);
    SameValues(cfg, s, i, End, True);
    SameValues(cfg, s, i, Skip, True);
  }

  lemma {:induction false} SameStop(cfg: PlanConf, s: Plan, i: nat, o: Outcome, f: FailureType)
    requires i < |cfg|
    ensures StopCause(cfg, WorldOf(s), i, o, f) == StopCause(cfg, Values(s), i, o, f)
  {
    SameValues(cfg, s, i, Exit, True);
    SameValues(cfg, s, i, Invariant, False);
    SameValues(cfg, s, i, Post, True);
  }

  // ----- every step keeps it -----

  lemma {:induction false} QueueStepKeepsCause(cfg: PlanConf, s: Plan, step: Step)
    requires Inv(cfg, s) && CauseInv(cfg, s) && Enabled(cfg, s, step) && (step.Check? || step.Resolve?)
    ensures Sized(cfg, Apply(cfg, s, step)) && CauseInv(cfg, Apply(cfg, s, step))
  {
    var t, i := Apply(cfg, s, step), step.node;
    assert NodeOk(cfg, s, i);
    if step.Check? { CheckShape(cfg, s, i); } else { ResolveShape(cfg, s, i); }
    QueuedWithDecision(s.nodes[i], Decide(cfg, s, i), NeedsResources(cfg[i]), CanAcquire(cfg[i], s));
    if Decide(cfg, s, i).Go? {
      var d := Decide(cfg, s, i);
      DecisionHasCause(cfg, s, i);
      SameCause(cfg, s, i, s.nodes[i].state, d.to, d.outcome, d.failure);
    }
    OthersKeepCause(cfg, s, t, i);
  }

  lemma QueuedWithDecision(n: NodeRec, d: Decision, needs: bool, free: bool)
    requires n.nextOutcome == NoOutcome && n.nextFailure == NoFailure && n.queue != StateChange
    ensures var m := Checked(n, d, needs);
      m.queue == StateChange ==>
        d.Go? && m.next == Some(d.to) && m.nextOutcome == d.outcome && m.nextFailure == d.failure
    ensures var m := Resolved(n, d, free);
      m.queue == StateChange ==>
        || (PendingStatus(n.status) && m.next == n.next)
        || (d.Go? && m.next == Some(d.to) && m.nextOutcome == d.outcome && m.nextFailure == d.failure)
  {
  }

  /** A waiting node that executes records nothing, and has no cause to give. */
  lemma OthersKeepCause(cfg: PlanConf, s: Plan, t: Plan, i: nat)
    requires Sized(cfg, s) && CauseInv(cfg, s) && Sized(cfg, t) && i < |cfg|
    requires t.nodes == s.nodes[i := t.nodes[i]] && t.values == s.values && t.nodes[i].state == s.nodes[i].state
    requires var n := t.nodes[i]; n.queue == StateChange && n.next.Some? ==>
      || (n.state == Waiting && n.next == Some(Executing))
      || Cause(cfg, Values(s), i, n.state, n.next.value, n.nextOutcome, n.nextFailure)
    ensures CauseInv(cfg, t)
  {
    assert Values(t) == Values(s);
    forall j: nat | j < |cfg| ensures CauseOk(cfg, t, j) {
      assert CauseOk(cfg, s, j);
    }
  }

  lemma CommitKeepsCause(cfg: PlanConf, s: Plan, i: nat, t: Plan)
    requires Inv(cfg, s) && CauseInv(cfg, s) && CommitEffect(cfg, s, i, t) && t.values == s.values
    ensures CauseInv(cfg, t)
  {
    assert Values(t) == Values(s);
    forall j: nat | j < |cfg| ensures CauseOk(cfg, t, j) {
      assert CauseOk(cfg, s, j) && NodeOk(cfg, s, j);
      if j != i {
        TouchedQueue(cfg[j].parent.None?, s.nodes[j], t.nodes[j]);
      }
    }
  }

  /** The values change only when no move is queued. */
  lemma TouchKeepsCause(cfg: PlanConf, s: Plan, step: Step)
    requires Inv(cfg, s) && CauseInv(cfg, s) && Enabled(cfg, s, step) && OnlyTouches(step)
    ensures Sized(cfg, Apply(cfg, s, step)) && CauseInv(cfg, Apply(cfg, s, step))
  {
    var t := Apply(cfg, s, step);
    TouchShape(cfg, s, step);
    assert t.values == s.values || (step.Begin? || step.Again?);
    forall j: nat | j < |cfg| ensures CauseOk(cfg, t, j) {
      assert CauseOk(cfg, s, j) && NodeOk(cfg, s, j) && Touched(s.nodes[j], t.nodes[j]);
      TouchedQueue(cfg[j].parent.None?, s.nodes[j], t.nodes[j]);
    }
  }

  lemma {:induction false} StepKeepsCause(cfg: PlanConf, s: Plan, step: Step)
    requires Inv(cfg, s) && CauseInv(cfg, s) && Enabled(cfg, s, step)
    ensures Sized(cfg, Apply(cfg, s, step)) && CauseInv(cfg, Apply(cfg, s, step))
  {
    match step {
      case Check(_) => QueueStepKeepsCause(cfg, s, step);
      case Resolve(_) => QueueStepKeepsCause(cfg, s, step);
      case Commit(i, rhs) =>
        CommitShape(cfg, s, i, rhs);
        CommitKeepsCause(cfg, s, i, CommitNode(cfg, s, i, rhs));
      case _ => TouchKeepsCause(cfg, s, step);
    }
  }

  // ----- what is recorded -----

  /** The record n after its move, and why it moved. */
  ghost predicate Explained(cfg: PlanConf, w: World, i: nat, n: NodeRec, m: NodeRec)
    requires i < |cfg|
  {
    && n.next == Some(m.state) && LegalEdge(cfg[i].kind, n.state, m.state)
    && OutcomeTable(n.state, n.outcome, n.failure) && OutcomeTable(m.state, m.outcome, m.failure)
    && m.outcome == NewOutcome(n.state, m.state, n.outcome, n.nextOutcome)
    && m.failure == NewFailure(n.state, m.state, n.failure, n.nextOutcome, n.nextFailure)
    && Cause(cfg, w, i, n.state, m.state, n.nextOutcome, n.nextFailure)
  }

  lemma {:induction false} MoveIsExplained(cfg: PlanConf, s: Plan, i: nat, rhs: Val)
    requires Inv(cfg, s) && CauseInv(cfg, s) && Enabled(cfg, s, Commit(i, rhs))
    ensures |CommitNode(cfg, s, i, rhs).nodes| == |cfg|
    ensures Explained(cfg, Values(s), i, s.nodes[i], CommitNode(cfg, s, i, rhs).nodes[i])
  {
    assert NodeOk(cfg, s, i) && CauseOk(cfg, s, i);
    CommitShape(cfg, s, i, rhs);
  }

  /** By the outcome table exactly one of the causes applies to what a node at work records. */
  lemma {:induction false} StopIsExact(cfg: PlanConf, w: World, i: nat, n: NodeRec, m: NodeRec)
    requires i < |cfg| && Explained(cfg, w, i, n, m)
    requires (n.state == Executing || n.state == Finishing) && m.state != Finishing
    ensures var exit, failed := SomeAncestorIs(cfg, w, i, Exit, True), SomeAncestorIs(cfg, w, i, Invariant, False);
      && (m.failure == ParentExited <==> exit)
      && (m.failure == Exited <==> !exit && Says(cfg, w, i, Exit, True))
      && (m.failure == ParentFailed <==> !exit && !Says(cfg, w, i, Exit, True) && failed)
      && (m.failure == InvariantConditionFailed <==>
            !exit && !Says(cfg, w, i, Exit, True) && !failed && Says(cfg, w, i, Invariant, False))
      && (m.failure == PostConditionFailed <==> Undisturbed(cfg, w, i) && !Fulfilled(cfg, w, i, Post))
      && (m.outcome == Success <==> Undisturbed(cfg, w, i) && Fulfilled(cfg, w, i, Post))
  {
  }
}
