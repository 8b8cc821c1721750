/** Who holds which mutex and which assignment variable, in every reachable state. */
module Resources {
  import opened NodeConstants
  import opened Options
  import opened Conditions
  import opened NodeLogic
  import opened PlanMachine
  import opened PlanInvariant

  /** The node has its resources and is about to start. */
  predicate Starting(n: NodeRec) {
    n.queue == StateChange && n.next == Some(Executing)
  }

  /** When a node holds its using-mutexes: while it runs, once they have been granted,
      and after it has left them behind on a move into FINISHED. */
  predicate HoldsMutexes(s: Plan, i: nat)
    requires i < |s.nodes| == |s.hist|
  {
    Running(s.nodes[i].state) || Starting(s.nodes[i]) || s.hist[i].leaked
  }

  predicate HoldsVariable(cfg: PlanConf, s: Plan, i: nat)
    requires i < |cfg| == |s.nodes|
  {
    && cfg[i].kind == Assignment
    && (s.nodes[i].state == Executing || s.nodes[i].state == Failing || Starting(s.nodes[i]))
  }

  ghost predicate MutexOk(cfg: PlanConf, s: Plan, i: nat, m: nat)
    requires Sized(cfg, s) && i < |cfg|
  {
    s.holders(m) == Some(i) <==> (m in cfg[i].mutexes && HoldsMutexes(s, i))
  }

  ghost predicate VariableOk(cfg: PlanConf, s: Plan, i: nat, v: nat)
    requires Sized(cfg, s) && i < |cfg|
  {
    (v in s.varHolders && s.varHolders[v] == i) <==> (v == cfg[i].variable && HoldsVariable(cfg, s, i))
  }

  ghost predicate LeakOk(cfg: PlanConf, s: Plan, i: nat)
    requires Sized(cfg, s) && i < |cfg|
  {
    s.hist[i].leaked ==> cfg[i].mutexes != [] && !Running(s.nodes[i].state) && !Starting(s.nodes[i])
  }

  ghost predicate HoldersExist(cfg: PlanConf, s: Plan) {
    && (forall m: nat :: s.holders(m).Some? ==> s.holders(m).value < |cfg|)
    && (forall v | v in s.varHolders :: s.varHolders[v] < |cfg|)
  }

  ghost predicate ResInv(cfg: PlanConf, s: Plan)
    requires Sized(cfg, s)
  {
    && HoldersExist(cfg, s)
    && (forall i: nat | i < |cfg| :: LeakOk(cfg, s, i))
    && (forall i: nat, m: nat | i < |cfg| :: MutexOk(cfg, s, i, m))
    && (forall i: nat, v: nat | i < |cfg| :: VariableOk(cfg, s, i, v))
  }

  /** Steps that grant and release nothing and start and stop nobody. */
  lemma NeutralKeepsRes(cfg: PlanConf, s: Plan, t: Plan)
    requires Sized(cfg, s) && ResInv(cfg, s) && Sized(cfg, t)
    requires t.holders == s.holders && t.varHolders == s.varHolders && t.hist == s.hist
    requires forall j | 0 <= j < |cfg| ::
      t.nodes[j].state == s.nodes[j].state && (Starting(t.nodes[j]) <==> Starting(s.nodes[j]))
    ensures ResInv(cfg, t)
  {
    forall i: nat | i < |cfg| ensures LeakOk(cfg, t, i) { assert LeakOk(cfg, s, i); }
    forall i: nat, m: nat | i < |cfg| ensures MutexOk(cfg, t, i, m) { assert MutexOk(cfg, s, i, m); }
    forall i: nat, v: nat | i < |cfg| ensures VariableOk(cfg, t, i, v) { assert VariableOk(cfg, s, i, v); }
  }

  /** A node that needs nothing starts straight away. */
  lemma FreeStartKeepsRes(cfg: PlanConf, s: Plan, t: Plan, i: nat)
    requires Sized(cfg, s) && ResInv(cfg, s) && Sized(cfg, t) && i < |cfg| && !NeedsResources(cfg[i])
    requires t.holders == s.holders && t.varHolders == s.varHolders && t.hist == s.hist
    requires t.nodes == s.nodes[i := t.nodes[i]] && t.nodes[i].state == s.nodes[i].state
    ensures ResInv(cfg, t)
  {
    forall j: nat | j < |cfg| ensures LeakOk(cfg, t, j) { assert LeakOk(cfg, s, j); }
    forall j: nat, m: nat | j < |cfg| ensures MutexOk(cfg, t, j, m) { assert MutexOk(cfg, s, j, m); }
    forall j: nat, v: nat | j < |cfg| ensures VariableOk(cfg, t, j, v) { assert VariableOk(cfg, s, j, v); }
  }

  /** All resources of a node granted at once. */
  lemma GrantKeepsRes(cfg: PlanConf, s: Plan, t: Plan, i: nat)
    requires Inv(cfg, s) && ResInv(cfg, s) && Sized(cfg, t) && i < |cfg| && CanAcquire(cfg[i], s)
    requires s.nodes[i].queue == PendingQueue
    requires t.holders == Taken(s.holders, cfg[i].mutexes, i)
    requires t.varHolders == if cfg[i].kind == Assignment then s.varHolders[cfg[i].variable := i] else s.varHolders
    requires t.hist == s.hist[i := s.hist[i].(leaked := false)] && t.nodes == s.nodes[i := t.nodes[i]]
    requires t.nodes[i].state == s.nodes[i].state && Starting(t.nodes[i])
    ensures ResInv(cfg, t)
  {
    assert NodeOk(cfg, s, i);
    forall j: nat | j < |cfg| ensures LeakOk(cfg, t, j) { assert LeakOk(cfg, s, j); }
    forall j: nat, m: nat | j < |cfg| ensures MutexOk(cfg, t, j, m) {
      assert MutexOk(cfg, s, j, m);
    }
    forall j: nat, v: nat | j < |cfg| ensures VariableOk(cfg, t, j, v) {
      assert VariableOk(cfg, s, j, v);
    }
  }

  /** A failed attempt leaves the node holding nothing. */
  lemma FailedAttemptKeepsRes(cfg: PlanConf, s: Plan, t: Plan, i: nat)
    requires Inv(cfg, s) && ResInv(cfg, s) && Sized(cfg, t) && i < |cfg|
    requires s.nodes[i].queue == PendingQueue
    requires t.holders == Released(s.holders, cfg[i].mutexes, i) && t.varHolders == s.varHolders
    requires t.hist == s.hist[i := s.hist[i].(leaked := false)] && t.nodes == s.nodes[i := t.nodes[i]]
    requires t.nodes[i].state == s.nodes[i].state && !Starting(t.nodes[i])
    ensures ResInv(cfg, t)
  {
    assert NodeOk(cfg, s, i);
    forall j: nat | j < |cfg| ensures LeakOk(cfg, t, j) { assert LeakOk(cfg, s, j); }
    forall j: nat, m: nat | j < |cfg| ensures MutexOk(cfg, t, j, m) {
      assert MutexOk(cfg, s, j, m);
    }
    forall j: nat, v: nat | j < |cfg| ensures VariableOk(cfg, t, j, v) {
      assert VariableOk(cfg, s, j, v);
    }
  }

  lemma ResolveKeepsRes(cfg: PlanConf, s: Plan, i: nat)
    requires Inv(cfg, s) && ResInv(cfg, s) && Enabled(cfg, s, Resolve(i))
    ensures Sized(cfg, ResolveNode(cfg, s, i)) && ResInv(cfg, ResolveNode(cfg, s, i))
  {
    var t := ResolveNode(cfg, s, i);
    ResolveShape(cfg, s, i);
    assert NodeOk(cfg, s, i);
    var n, d, free := s.nodes[i], Decide(cfg, s, i), CanAcquire(cfg[i], s);
    SuccessStarts(n, d, free);
    if !Attempts(n, d) {
      NeutralKeepsRes(cfg, s, t);
    } else if free {
      GrantKeepsRes(cfg, s, t, i);
    } else {
      FailedAttemptKeepsRes(cfg, s, t, i);
    }
  }

  lemma SuccessStarts(n: NodeRec, d: Decision, free: bool)
    requires n.queue == PendingQueue && n.next == Some(Executing) && PendingStatus(n.status)
    ensures Starting(Resolved(n, d, free)) <==> Attempts(n, d) && free
  {
  }

  lemma CheckKeepsRes(cfg: PlanConf, s: Plan, i: nat)
    requires Inv(cfg, s) && ResInv(cfg, s) && Enabled(cfg, s, Check(i))
    ensures Sized(cfg, CheckNode(cfg, s, i)) && ResInv(cfg, CheckNode(cfg, s, i))
  {
    CheckShape(cfg, s, i);
    assert NodeOk(cfg, s, i);
    if NeedsResources(cfg[i]) {
      NeutralKeepsRes(cfg, s, CheckNode(cfg, s, i));
    } else {
      FreeStartKeepsRes(cfg, s, CheckNode(cfg, s, i), i);
    }
  }

  lemma CommitKeepsRes(cfg: PlanConf, s: Plan, i: nat, rhs: Val)
    requires Inv(cfg, s) && ResInv(cfg, s) && Enabled(cfg, s, Commit(i, rhs))
    ensures Sized(cfg, CommitNode(cfg, s, i, rhs)) && ResInv(cfg, CommitNode(cfg, s, i, rhs))
  {
    CommitShape(cfg, s, i, rhs);
    CommitHolders(cfg, s, i, rhs);
    CommittedKeepsRes(cfg, s, CommitNode(cfg, s, i, rhs), i);
  }

  /** What committing node i does to the resources. */
  ghost predicate HolderEffect(cfg: PlanConf, s: Plan, i: nat, to: NodeState, t: Plan)
    requires Sized(cfg, s) && Sized(cfg, t) && i < |cfg|
  {
    var from := s.nodes[i].state;
    && t.holders == (if ReleasesMutexes(from, to) then Released(s.holders, cfg[i].mutexes, i) else s.holders)
    && t.varHolders == CommittedVarHolders(cfg[i], i, from, to, s.varHolders)
    && t.hist[i].leaked == (if to == Finished && (from == Executing || from == Failing) then cfg[i].mutexes != []
                            else if to == Finished && from == Waiting then false else s.hist[i].leaked)
  }

  lemma {:induction false} CommitHolders(cfg: PlanConf, s: Plan, i: nat, rhs: Val)
    requires Sized(cfg, s) && i < |cfg| && s.nodes[i].next.Some?
    ensures Sized(cfg, CommitNode(cfg, s, i, rhs))
    ensures HolderEffect(cfg, s, i, s.nodes[i].next.value, CommitNode(cfg, s, i, rhs))
  {
  }

  lemma CommittedKeepsRes(cfg: PlanConf, s: Plan, t: Plan, i: nat)
    requires Inv(cfg, s) && ResInv(cfg, s) && CommitEffect(cfg, s, i, t) && s.nodes[i].queue == StateChange
    requires HolderEffect(cfg, s, i, t.nodes[i].state, t)
    ensures ResInv(cfg, t)
  {
    assert NodeOk(cfg, s, i) && LeakOk(cfg, s, i);
    forall j: nat | j < |cfg| && j != i
      ensures t.nodes[j].state == s.nodes[j].state && (Starting(t.nodes[j]) <==> Starting(s.nodes[j]))
    {
      assert NodeOk(cfg, s, j) && Touched(s.nodes[j], t.nodes[j]);
      TouchedQueue(cfg[j].parent.None?, s.nodes[j], t.nodes[j]);
    }
    forall j: nat | j < |cfg| ensures LeakOk(cfg, t, j) { assert LeakOk(cfg, s, j); }
    forall j: nat, m: nat | j < |cfg| ensures MutexOk(cfg, t, j, m) {
      assert MutexOk(cfg, s, j, m);
    }
    forall j: nat, v: nat | j < |cfg| ensures VariableOk(cfg, t, j, v) {
      assert VariableOk(cfg, s, j, v);
    }
  }

  lemma TouchKeepsRes(cfg: PlanConf, s: Plan, step: Step)
    requires Inv(cfg, s) && ResInv(cfg, s) && Enabled(cfg, s, step) && OnlyTouches(step)
    ensures Sized(cfg, Apply(cfg, s, step)) && ResInv(cfg, Apply(cfg, s, step))
  {
    var t := Apply(cfg, s, step);
    TouchShape(cfg, s, step);
    forall j | 0 <= j < |cfg|
      ensures t.nodes[j].state == s.nodes[j].state && (Starting(t.nodes[j]) <==> Starting(s.nodes[j]))
    {
      assert NodeOk(cfg, s, j) && Touched(s.nodes[j], t.nodes[j]);
      TouchedQueue(cfg[j].parent.None?, s.nodes[j], t.nodes[j]);
    }
    NeutralKeepsRes(cfg, s, t);
  }

  lemma StepKeepsRes(cfg: PlanConf, s: Plan, step: Step)
    requires Inv(cfg, s) && ResInv(cfg, s) && Enabled(cfg, s, step)
    ensures Sized(cfg, Apply(cfg, s, step)) && ResInv(cfg, Apply(cfg, s, step))
  {
    match step {
      case Check(i) => CheckKeepsRes(cfg, s, i);
      case Resolve(i) => ResolveKeepsRes(cfg, s, i);
      case Commit(i, rhs) => CommitKeepsRes(cfg, s, i, rhs);
      case _ => TouchKeepsRes(cfg, s, step);
    }
  }

  // ----- what follows -----

  /** Two running nodes never share a using-mutex. */
  lemma MutexesAreExclusive(cfg: PlanConf, s: Plan, i: nat, j: nat, m: nat)
    requires Sized(cfg, s) && ResInv(cfg, s) && i < |cfg| && j < |cfg| && i != j
    requires Running(s.nodes[i].state) && Running(s.nodes[j].state)
    ensures !(m in cfg[i].mutexes && m in cfg[j].mutexes)
  {
    assert MutexOk(cfg, s, i, m) && MutexOk(cfg, s, j, m);
  }

  /** Two Assignments that are executing or being undone never share a variable. */
  lemma VariablesAreExclusive(cfg: PlanConf, s: Plan, i: nat, j: nat)
    requires Sized(cfg, s) && ResInv(cfg, s) && i < |cfg| && j < |cfg| && i != j
    requires HoldsVariable(cfg, s, i) && HoldsVariable(cfg, s, j)
    ensures cfg[i].variable != cfg[j].variable
  {
    assert VariableOk(cfg, s, i, cfg[i].variable) && VariableOk(cfg, s, j, cfg[i].variable);
  }

  /** What ends a leak: being skipped, or trying to acquire the mutexes again. */
  predicate EndsLeak(cfg: PlanConf, s: Plan, step: Step, i: nat)
    requires i < |cfg| == |s.nodes|
  {
    || (step.Commit? && step.node == i && s.nodes[i].state == Waiting && s.nodes[i].next == Some(Finished))
    || (step == Resolve(i) && Attempts(s.nodes[i], Decide(cfg, s, i)))
  }

  /** A mutex left behind blocks every user of it, the node itself included, until that
      node is skipped or tries to acquire it again. */
  lemma LeakEndsExactly(cfg: PlanConf, s: Plan, step: Step, i: nat, m: nat)
    requires Inv(cfg, s) && ResInv(cfg, s) && Enabled(cfg, s, step) && i < |cfg|
    requires s.hist[i].leaked && m in cfg[i].mutexes
    ensures forall j | 0 <= j < |cfg| && m in cfg[j].mutexes :: !CanAcquire(cfg[j], s)
    ensures Apply(cfg, s, step).holders(m) == Some(i) <==> !EndsLeak(cfg, s, step, i)
  {
    assert MutexOk(cfg, s, i, m) && NodeOk(cfg, s, i) && LeakOk(cfg, s, i);
    StepKeepsRes(cfg, s, step);
    assert MutexOk(cfg, Apply(cfg, s, step), i, m);
    LeakStep(cfg, s, step, i);
  }

  lemma {:induction false} LeakStep(cfg: PlanConf, s: Plan, step: Step, i: nat)
    requires Inv(cfg, s) && ResInv(cfg, s) && Enabled(cfg, s, step) && i < |cfg| && s.hist[i].leaked
    ensures Sized(cfg, Apply(cfg, s, step))
    ensures HoldsMutexes(Apply(cfg, s, step), i) <==> !EndsLeak(cfg, s, step, i)
  {
    match step {
      case Check(j) => CheckShape(cfg, s, j);
      case Resolve(j) => LeakResolve(cfg, s, j, i);
      case Commit(j, rhs) =>
        CommitShape(cfg, s, j, rhs);
        CommitHolders(cfg, s, j, rhs);
        LeakCommit(cfg, s, j, CommitNode(cfg, s, j, rhs), i);
      case _ => TouchShape(cfg, s, step);
    }
  }

  lemma LeakCommit(cfg: PlanConf, s: Plan, j: nat, t: Plan, i: nat)
    requires Inv(cfg, s) && ResInv(cfg, s) && i < |cfg| && s.hist[i].leaked
    requires CommitEffect(cfg, s, j, t) && HolderEffect(cfg, s, j, t.nodes[j].state, t)
    requires s.nodes[j].queue == StateChange
    ensures HoldsMutexes(t, i) <==> !(i == j && s.nodes[i].state == Waiting && s.nodes[i].next == Some(Finished))
  {
    assert NodeOk(cfg, s, i) && LeakOk(cfg, s, i);
  }

  lemma {:induction false} LeakResolve(cfg: PlanConf, s: Plan, j: nat, i: nat)
    requires Inv(cfg, s) && ResInv(cfg, s) && Enabled(cfg, s, Resolve(j)) && i < |cfg| && s.hist[i].leaked
    ensures Sized(cfg, ResolveNode(cfg, s, j))
    ensures HoldsMutexes(ResolveNode(cfg, s, j), i) <==> !(i == j && Attempts(s.nodes[i], Decide(cfg, s, i)))
  {
    ResolveShape(cfg, s, j);
    assert NodeOk(cfg, s, i) && LeakOk(cfg, s, i) && MutexOk(cfg, s, i, cfg[i].mutexes[0]);
    if i == j {
      SuccessStarts(s.nodes[j], Decide(cfg, s, j), CanAcquire(cfg[j], s));
    }
  }

  /** A node's attempt to acquire its resources again after leaking them fails on its own
      mutexes: it gives them all back, yet goes on waiting for an announcement. */
  lemma OwnLeakFailsTheAttempt(cfg: PlanConf, s: Plan, i: nat)
    requires Inv(cfg, s) && ResInv(cfg, s) && Enabled(cfg, s, Resolve(i)) && s.hist[i].leaked
    requires Attempts(s.nodes[i], Decide(cfg, s, i))
    ensures var t := ResolveNode(cfg, s, i);
      && (forall m | m in cfg[i].mutexes :: t.holders(m) == None)
      && t.nodes[i].status == QueuePending && t.nodes[i].queue == PendingQueue && t.nodes[i].state == Waiting
  {
    assert NodeOk(cfg, s, i) && LeakOk(cfg, s, i) && MutexOk(cfg, s, i, cfg[i].mutexes[0]);
    forall m | m in cfg[i].mutexes ensures s.holders(m) == Some(i) {
      assert MutexOk(cfg, s, i, m);
    }
  }

  /** A node that moves to FINISHED straight from EXECUTING or FAILING keeps its mutexes. */
  lemma FinishingEarlyLeaks(cfg: PlanConf, s: Plan, i: nat, rhs: Val, m: nat)
    requires Inv(cfg, s) && ResInv(cfg, s) && Enabled(cfg, s, Commit(i, rhs)) && m in cfg[i].mutexes
    requires s.nodes[i].next == Some(Finished)
    ensures var t := CommitNode(cfg, s, i, rhs);
      s.nodes[i].state == Executing || s.nodes[i].state == Failing ==>
        t.holders(m) == Some(i) && t.nodes[i].state == Finished
  {
    assert NodeOk(cfg, s, i) && MutexOk(cfg, s, i, m);
    CommitShape(cfg, s, i, rhs);
  }
}
