/** Event-driven checking loses no wake-up caused by a parent's state: the check queue
    does the work of polling every node. */
module WakeUp {
  import opened NodeConstants
  import opened Options
  import opened Conditions
  import opened NodeLogic
  import opened PlanMachine
  import opened PlanInvariant

  ghost predicate NeedsWake(cfg: PlanConf, s: Plan, c: nat)
    requires Sized(cfg, s) && c < |cfg|
  {
    && cfg[c].parent.Some? && cfg[c].parent.value < |cfg|
    && Wakes(s.nodes[cfg[c].parent.value].state, s.nodes[c].state)
  }

  ghost predicate CheckPending(n: NodeRec) {
    n.queue == Candidates || n.queue == StateChange
  }

  ghost predicate WakeInv(cfg: PlanConf, s: Plan)
    requires Sized(cfg, s)
  {
    forall c: nat {:trigger s.nodes[c]} | c < |cfg| :: NeedsWake(cfg, s, c) ==> CheckPending(s.nodes[c])
  }

  /** A child whose parent's state concerns it always decides to move, and never to execute. */
  lemma WokenChildMoves(cfg: PlanConf, s: Plan, c: nat)
    requires Inv(cfg, s) && c < |cfg| && NeedsWake(cfg, s, c)
    ensures Decide(cfg, s, c).Go? && Decide(cfg, s, c).to != Executing
  {
  }

  /** Notifying or otherwise touching nodes takes none off its queue. */
  lemma TouchedKeepsWake(cfg: PlanConf, s: Plan, t: Plan)
    requires Inv(cfg, s) && WakeInv(cfg, s) && Sized(cfg, t)
    requires forall j | 0 <= j < |cfg| :: Touched(s.nodes[j], t.nodes[j])
    ensures WakeInv(cfg, t)
  {
  }

  /** Changing one node's record but not its state. */
  lemma SameStateKeepsWake(cfg: PlanConf, s: Plan, t: Plan, i: nat)
    requires Inv(cfg, s) && WakeInv(cfg, s) && Sized(cfg, t) && i < |cfg|
    requires t.nodes == s.nodes[i := t.nodes[i]] && t.nodes[i].state == s.nodes[i].state
    requires NeedsWake(cfg, s, i) ==> CheckPending(t.nodes[i])
    ensures WakeInv(cfg, t)
  {
  }

  /** ListNode::setState notifies exactly the children that the new state concerns. */
  lemma CommitKeepsWake(cfg: PlanConf, s: Plan, i: nat, t: Plan)
    requires Inv(cfg, s) && WakeInv(cfg, s) && CommitEffect(cfg, s, i, t)
    ensures WakeInv(cfg, t)
  {
    forall c: nat | c < |cfg| && NeedsWake(cfg, t, c) ensures CheckPending(t.nodes[c]) {
      assert NodeWellFormed(cfg, c) && NodeOk(cfg, s, c);
      var p := cfg[c].parent.value;
      if c == i {
        assert t.nodes[c].queue == Candidates;
      } else if p == i {
        assert Touched(s.nodes[c], t.nodes[c]);
        assert s.nodes[c].status != QueueDelete && !PendingStatus(s.nodes[c].status);
      } else {
        assert Touched(s.nodes[c], t.nodes[c]) && Touched(s.nodes[p], t.nodes[p]);
        assert NeedsWake(cfg, s, c);
        TouchedQueue(cfg[c].parent.None?, s.nodes[c], t.nodes[c]);
      }
    }
  }

  lemma StepKeepsWake(cfg: PlanConf, s: Plan, step: Step)
    requires Inv(cfg, s) && WakeInv(cfg, s) && Enabled(cfg, s, step)
    ensures Sized(cfg, Apply(cfg, s, step)) && WakeInv(cfg, Apply(cfg, s, step))
  {
    var t := Apply(cfg, s, step);
    match step {
      case Check(i) =>
        if NeedsWake(cfg, s, i) { WokenChildMoves(cfg, s, i); }
        CheckShape(cfg, s, i);
        SameStateKeepsWake(cfg, s, t, i);
      case Resolve(i) =>
        assert NodeOk(cfg, s, i);
        ResolveShape(cfg, s, i);
        SameStateKeepsWake(cfg, s, t, i);
      case Commit(i, rhs) =>
        CommitShape(cfg, s, i, rhs);
        CommitKeepsWake(cfg, s, i, t);
      case _ =>
        TouchShape(cfg, s, step);
        TouchedKeepsWake(cfg, s, t);
    }
  }

  /** Polling a non-root node that is inactive or finished and has no check pending would
      change nothing, whatever the conditions are worth at that moment. */
  lemma PollingAddsNothing(cfg: PlanConf, s: Plan, c: nat,
                           values: map<(nat, CondIdx), Tri>, handles: map<nat, CommandHandle>)
    requires Inv(cfg, s) && WakeInv(cfg, s) && c < |cfg| && cfg[c].parent.Some?
    requires s.nodes[c].state == Inactive || s.nodes[c].state == Finished
    requires !CheckPending(s.nodes[c])
    ensures Decide(cfg, s.(values := values, handles := handles), c) == Stay
  {
    assert NodeWellFormed(cfg, c);
    assert !NeedsWake(cfg, s, c);
  }

  /** The notifications of setState(), by which a node that moves tells itself and the
      children its move concerns, never reach a status that notify() reports as an
      error. The nodes whose conditions watch the state that publishChange() announces
      are told by steps of their own (Notify), and for these the error is possible:
      see ANotificationIsRejected. */
  lemma InternalNotificationsAreLegal(cfg: PlanConf, s: Plan, i: nat, rhs: Val, c: nat)
    requires Inv(cfg, s) && Enabled(cfg, s, Commit(i, rhs))
    requires IsChild(cfg, c, i) && Wakes(s.nodes[i].next.value, s.nodes[c].state)
    ensures NotifyOk(s.nodes[c].status) && NotifyOk(Popped(s.nodes[i]).status)
  {
    assert NodeOk(cfg, s, c);
  }

  // ----- the node that is lost -----

  /** The node is on no queue, yet its status says it is pending. */
  ghost predicate Stuck(n: NodeRec) {
    PendingStatus(n.status) && n.queue == NoQueue
  }

  /** No step ever moves a stuck node or puts it on a queue again. */
  lemma StuckStaysStuck(cfg: PlanConf, s: Plan, step: Step, i: nat)
    requires Inv(cfg, s) && i < |cfg| && Enabled(cfg, s, step) && Stuck(s.nodes[i])
    ensures Sized(cfg, Apply(cfg, s, step))
    ensures Stuck(Apply(cfg, s, step).nodes[i])
    ensures Apply(cfg, s, step).nodes[i].state == Waiting
  {
    assert NodeOk(cfg, s, i);
    match step {
      case Check(j) => CheckShape(cfg, s, j);
      case Resolve(j) => ResolveShape(cfg, s, j);
      case Commit(j, rhs) =>
        CommitShape(cfg, s, j, rhs);
        TouchedNotLost(s.nodes[i], Apply(cfg, s, step).nodes[i]);
      case _ =>
        TouchShape(cfg, s, step);
        TouchedNotLost(s.nodes[i], Apply(cfg, s, step).nodes[i]);
    }
  }

  lemma {:induction false} StuckForever(cfg: PlanConf, s: Plan, steps: seq<Step>, t: Plan, i: nat)
    requires Inv(cfg, s) && IsRun(cfg, s, steps, t) && i < |cfg| && Stuck(s.nodes[i])
    ensures Sized(cfg, t) && Stuck(t.nodes[i]) && t.nodes[i].state == Waiting
    decreases |steps|
  {
    if steps == [] {
      assert NodeOk(cfg, s, i);
    } else {
      StuckStaysStuck(cfg, s, steps[0], i);
      StepKeepsInv(cfg, s, steps[0]);
      StuckForever(cfg, Apply(cfg, s, steps[0]), steps[1..], t, i);
    }
  }

  /** A node gets lost by exactly one thing: a turn in the pending queue with status
      PENDING_CHECK at which its conditions no longer let it move. */
  lemma LostExactlyWhen(cfg: PlanConf, s: Plan, step: Step, i: nat)
    requires Inv(cfg, s) && i < |cfg| && Enabled(cfg, s, step) && !Stuck(s.nodes[i])
    ensures Sized(cfg, Apply(cfg, s, step))
    ensures Stuck(Apply(cfg, s, step).nodes[i])
      <==> step == Resolve(i) && s.nodes[i].status == QueuePendingCheck && Decide(cfg, s, i) == Stay
  {
    assert NodeOk(cfg, s, i);
    match step {
      case Check(j) => CheckShape(cfg, s, j);
      case Resolve(j) =>
        ResolveShape(cfg, s, j);
        if i == j { LostInQueue(cfg, s, i); }
      case Commit(j, rhs) =>
        CommitShape(cfg, s, j, rhs);
        if i != j { TouchedNotLost(s.nodes[i], Apply(cfg, s, step).nodes[i]); }
      case _ =>
        TouchShape(cfg, s, step);
        TouchedNotLost(s.nodes[i], Apply(cfg, s, step).nodes[i]);
    }
  }

  lemma LostInQueue(cfg: PlanConf, s: Plan, i: nat)
    requires Inv(cfg, s) && i < |cfg| && Enabled(cfg, s, Resolve(i))
    ensures Stuck(Resolved(s.nodes[i], Decide(cfg, s, i), CanAcquire(cfg[i], s)))
      <==> s.nodes[i].status == QueuePendingCheck && Decide(cfg, s, i) == Stay
  {
    assert NodeOk(cfg, s, i);
    DestIsLegal(cfg[i].kind, s.nodes[i].state, s.nodes[i].failure, ParentState(cfg, s, i), Env(cfg, WorldOf(s), i));
  }

  lemma TouchedNotLost(n: NodeRec, m: NodeRec)
    requires Touched(n, m)
    ensures Stuck(m) <==> Stuck(n)
  {
  }

  /** The children that are told are those that their list's new state may make move: one that rests
      and in that state, for some values of the conditions, decides to. */
  lemma {:induction false} ToldIfItMayMove(kind: Kind, parentNow: NodeState, child: NodeState, f: FailureType)
    ensures child == Inactive || child == Finished ==>
      (Wakes(parentNow, child) <==> exists c: Conds :: Dest(kind, child, f, Some(parentNow), c).Go?)
    ensures Wakes(parentNow, child) ==> child == Inactive || child == Finished
  {
    var c: Conds := k => None;
    assert Wakes(parentNow, child) ==> Dest(kind, child, f, Some(parentNow), c).Go?;
  }

  // ----- notifications -----

  /** The node is asked to check its conditions. */
  predicate Asked(n: NodeRec) {
    n.status == QueueCheck || n.status == QueuePendingCheck || n.status == QueuePendingTryCheck
    || n.status == QueueTransitionCheck
  }

  /** Whatever happens to other nodes at most notifies this one. */
  lemma {:induction false} OthersTouch(cfg: PlanConf, s: Plan, step: Step, i: nat)
    requires Sized(cfg, s) && Enabled(cfg, s, step) && i < |cfg|
    requires (step.Commit? || step.Check? || step.Resolve?) ==> step.node != i
    ensures Sized(cfg, Apply(cfg, s, step)) && Touched(s.nodes[i], Apply(cfg, s, step).nodes[i])
  {
    match step {
      case Commit(j, rhs) => CommitShape(cfg, s, j, rhs);
      case Check(j) => CheckShape(cfg, s, j);
      case Resolve(j) => ResolveShape(cfg, s, j);
      case _ => TouchShape(cfg, s, step);
    }
  }

  lemma TouchedIsAsked(root: bool, n: NodeRec, m: NodeRec)
    requires QueueOk(root, n) && Touched(n, m)
    ensures Asked(n) ==> Asked(m)
    ensures n.queue == FinishedRoots ==> m.queue == FinishedRoots
  {
  }

  /** Still asked, or a root that has finished and is not checked any more. */
  predicate StillAsked(n: NodeRec) {
    Asked(n) || n.queue == FinishedRoots
  }

  lemma {:induction false} StepKeepsAsked(cfg: PlanConf, s: Plan, step: Step, i: nat)
    requires Inv(cfg, s) && Enabled(cfg, s, step) && i < |cfg| && step != Check(i) && step != Resolve(i)
    requires StillAsked(s.nodes[i])
    ensures Sized(cfg, Apply(cfg, s, step)) && StillAsked(Apply(cfg, s, step).nodes[i])
  {
    assert NodeOk(cfg, s, i);
    if step.Commit? && step.node == i {
      CommitShape(cfg, s, i, step.rhs);
    } else {
      OthersTouch(cfg, s, step, i);
      TouchedIsAsked(cfg[i].parent.None?, s.nodes[i], Apply(cfg, s, step).nodes[i]);
    }
  }

  lemma {:induction false} RunKeepsAsked(cfg: PlanConf, s: Plan, steps: seq<Step>, t: Plan, i: nat)
    requires Inv(cfg, s) && IsRun(cfg, s, steps, t) && i < |cfg| && Check(i) !in steps && Resolve(i) !in steps
    requires StillAsked(s.nodes[i])
    ensures i < |t.nodes| && StillAsked(t.nodes[i])
    decreases |steps|
  {
    if steps != [] {
      assert steps[0] in steps;
      StepKeepsAsked(cfg, s, steps[0], i);
      StepKeepsInv(cfg, s, steps[0]);
      RunKeepsAsked(cfg, Apply(cfg, s, steps[0]), steps[1..], t, i);
    }
  }
}
