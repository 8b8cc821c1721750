/** The results about plans in execution, for every state of every run of every plan. */
module PlanTheorems {
  import opened NodeConstants
  import opened Options
  import opened Conditions
  import opened NodeLogic
  import opened WalkedQueue
  import opened PlanMachine
  import opened PlanInvariant
  import opened WakeUp
  import opened StructuredIteration
  import opened Termination
  import opened Resources
  import opened Activation
  import opened Rollback
  import opened Contention
  import opened ActiveConditions
  import opened Decisions
  import opened RecordedOutcomes
  import opened TurnOrder

  ghost predicate AllInv(cfg: PlanConf, s: Plan) {
    && Inv(cfg, s) && WakeInv(cfg, s) && WokenInv(cfg, s) && StructureInv(cfg, s)
    && TermInv(cfg, s) && ResInv(cfg, s) && ActInv(cfg, s) && RollInv(cfg, s)
    && QueueInv(cfg, s) && WaitInv(cfg, s) && CauseInv(cfg, s)
  }

  lemma StepKeepsAll(cfg: PlanConf, s: Plan, step: Step)
    requires AllInv(cfg, s) && Enabled(cfg, s, step)
    ensures AllInv(cfg, Apply(cfg, s, step))
  {
    StepKeepsInv(cfg, s, step);
    StepKeepsWake(cfg, s, step);
    StepKeepsWoken(cfg, s, step);
    StepKeepsStructure(cfg, s, step);
    StepKeepsTerm(cfg, s, step);
    StepKeepsRes(cfg, s, step);
    StepKeepsAct(cfg, s, step);
    StepKeepsRoll(cfg, s, step);
    StepKeepsQueue(cfg, s, step);
    StepKeepsWait(cfg, s, step);
    StepKeepsCause(cfg, s, step);
  }

  lemma InitialAll(cfg: PlanConf, vars: map<nat, Variable>)
    requires WellFormed(cfg)
    ensures AllInv(cfg, Initial(cfg, vars))
  {
    InitialInv(cfg, vars);
    var s := Initial(cfg, vars);
    forall i: nat | i < |cfg| ensures CountsOk(cfg, s, i) && ResetsPaid(cfg, s, i) {
      assert NodeWellFormed(cfg, i);
      assert s.hist[i] == Hist(0, 0, 0, 0, 0, false, None) && s.nodes[i].state == Inactive;
    }
    forall i: nat, k: CondIdx | i < |cfg| ensures CountOk(cfg, s, i, k) {
      assert s.nodes[i] == FreshNode(cfg[i].parent.None?) && s.hist[i].executions == 0;
    }
  }

  lemma {:induction false} RunKeepsAll(cfg: PlanConf, s: Plan, steps: seq<Step>, t: Plan)
    requires AllInv(cfg, s) && IsRun(cfg, s, steps, t)
    ensures AllInv(cfg, t)
    decreases |steps|
  {
    if steps != [] {
      StepKeepsAll(cfg, s, steps[0]);
      RunKeepsAll(cfg, Apply(cfg, s, steps[0]), steps[1..], t);
    }
  }

  lemma ReachableAll(cfg: PlanConf, s: Plan)
    requires WellFormed(cfg) && Reachable(cfg, s)
    ensures AllInv(cfg, s)
  {
    var vars, steps :| IsRun(cfg, Initial(cfg, vars), steps, s);
    InitialAll(cfg, vars);
    RunKeepsAll(cfg, Initial(cfg, vars), steps, s);
  }

  /** Outcome and failure type always fit the state, and no handler meets a state it has
      no transition for. */
  lemma OutcomesAlwaysFit(cfg: PlanConf, s: Plan, i: nat)
    requires WellFormed(cfg) && Reachable(cfg, s) && i < |cfg|
    ensures |s.nodes| == |cfg|
    ensures OutcomeTable(s.nodes[i].state, s.nodes[i].outcome, s.nodes[i].failure)
    ensures StateOf(cfg[i].kind, s.nodes[i].state)
    ensures Decide(cfg, s, i) != Illegal
    ensures s.nodes[i].queue == StateChange ==>
      s.nodes[i].next.Some? && LegalEdge(cfg[i].kind, s.nodes[i].state, s.nodes[i].next.value)
  {
    ReachableAll(cfg, s);
    assert NodeOk(cfg, s, i);
    DestIsLegal(cfg[i].kind, s.nodes[i].state, s.nodes[i].failure, ParentState(cfg, s, i), Env(cfg, WorldOf(s), i));
  }

  /** What a node at work records when it fails or ends its iteration, told in the values of the
      conditions at the moment of the move: an ancestor's Exit comes before its own, then an
      ancestor's Invariant, then its own; if nothing stops it, Post decides. */
  lemma {:induction false} RecordedOutcomesAreExact(cfg: PlanConf, s: Plan, i: nat, rhs: Val)
    requires WellFormed(cfg) && Reachable(cfg, s) && Sized(cfg, s) && Enabled(cfg, s, Commit(i, rhs))
    requires s.nodes[i].state == Executing || s.nodes[i].state == Finishing
    requires s.nodes[i].next != Some(Finishing)
    ensures |CommitNode(cfg, s, i, rhs).nodes| == |cfg|
    ensures var w, m := Values(s), CommitNode(cfg, s, i, rhs).nodes[i];
      var exit, failed := SomeAncestorIs(cfg, w, i, Exit, True), SomeAncestorIs(cfg, w, i, Invariant, False);
      && (m.failure == ParentExited <==> exit)
      && (m.failure == Exited <==> !exit && Says(cfg, w, i, Exit, True))
      && (m.failure == ParentFailed <==> !exit && !Says(cfg, w, i, Exit, True) && failed)
      && (m.failure == InvariantConditionFailed <==>
            !exit && !Says(cfg, w, i, Exit, True) && !failed && Says(cfg, w, i, Invariant, False))
      && (m.failure == PostConditionFailed <==> Undisturbed(cfg, w, i) && !Fulfilled(cfg, w, i, Post))
      && (m.outcome == Success <==> Undisturbed(cfg, w, i) && Fulfilled(cfg, w, i, Post))
  {
    ReachableAll(cfg, s);
    MoveIsExplained(cfg, s, i, rhs);
    StopIsExact(cfg, Values(s), i, s.nodes[i], CommitNode(cfg, s, i, rhs).nodes[i]);
  }

  /** From an ended iteration a node waits again exactly if its Repeat is true and no ancestor
      exits, fails or ends; it records an ancestor's exit or failure, and otherwise keeps what the
      iteration recorded. */
  lemma {:induction false} RepeatsAreExact(cfg: PlanConf, s: Plan, i: nat, rhs: Val)
    requires WellFormed(cfg) && Reachable(cfg, s) && Sized(cfg, s) && Enabled(cfg, s, Commit(i, rhs))
    requires s.nodes[i].state == IterationEnded
    ensures |CommitNode(cfg, s, i, rhs).nodes| == |cfg|
    ensures var w, n, m := Values(s), s.nodes[i], CommitNode(cfg, s, i, rhs).nodes[i];
      var exit, failed := SomeAncestorIs(cfg, w, i, Exit, True), SomeAncestorIs(cfg, w, i, Invariant, False);
      && (m.state == Waiting <==>
            !exit && !failed && !SomeAncestorIs(cfg, w, i, End, True) && Says(cfg, w, i, Repeat, True))
      && (m.state == Finished ==>
            && m.outcome == (if exit then Interrupted else if failed then Outcome.Failure else n.outcome)
            && m.failure == (if exit then ParentExited else if failed then ParentFailed else n.failure))
  {
    ReachableAll(cfg, s);
    MoveIsExplained(cfg, s, i, rhs);
  }

  /** What a waiting node records without having executed. */
  lemma {:induction false} UnstartedNodesSayWhy(cfg: PlanConf, s: Plan, i: nat, rhs: Val)
    requires WellFormed(cfg) && Reachable(cfg, s) && Sized(cfg, s) && Enabled(cfg, s, Commit(i, rhs))
    requires s.nodes[i].state == Waiting && s.nodes[i].next != Some(Executing)
    ensures |CommitNode(cfg, s, i, rhs).nodes| == |cfg|
    ensures var w, m := Values(s), CommitNode(cfg, s, i, rhs).nodes[i];
      && (m.state == Finished <==> m.outcome == Skipped) && (m.state == Finished <==> Skipping(cfg, w, i))
      && (m.state == IterationEnded <==> m.outcome == Outcome.Failure && m.failure == PreConditionFailed)
      && (m.state == IterationEnded <==>
            !Skipping(cfg, w, i) && Fulfilled(cfg, w, i, Start) && !Fulfilled(cfg, w, i, Pre))
  {
    ReachableAll(cfg, s);
    MoveIsExplained(cfg, s, i, rhs);
  }

  /** No wake-up is lost: a child that its parent's state concerns has a check pending, and
      a child without one would not move if it were polled. */
  lemma NoLostWakeUp(cfg: PlanConf, s: Plan, c: nat, values: map<(nat, CondIdx), Tri>, handles: map<nat, CommandHandle>)
    requires WellFormed(cfg) && Reachable(cfg, s) && c < |cfg| && cfg[c].parent.Some?
    ensures |s.nodes| == |cfg| && cfg[c].parent.value < |cfg|
    ensures var p := s.nodes[cfg[c].parent.value].state; !CheckPending(s.nodes[c]) ==>
      && !(s.nodes[c].state == Inactive && (p == Executing || p == Finished))
      && !(s.nodes[c].state == Finished && p == Waiting)
    ensures !CheckPending(s.nodes[c]) && (s.nodes[c].state == Inactive || s.nodes[c].state == Finished) ==>
      Decide(cfg, s.(values := values, handles := handles), c) == Stay
  {
    ReachableAll(cfg, s);
    assert NodeWellFormed(cfg, c);
    if !CheckPending(s.nodes[c]) {
      assert !NeedsWake(cfg, s, c);
      if s.nodes[c].state == Inactive || s.nodes[c].state == Finished {
        PollingAddsNothing(cfg, s, c, values, handles);
      }
    }
  }

  /** Structured iteration, at every point of a run: a started child means the list is
      executing; FINISHING means every child has finished; the list never fails. */
  lemma ChildrenStayInsideTheList(cfg: PlanConf, s: Plan, l: nat, c: nat)
    requires WellFormed(cfg) && Reachable(cfg, s) && Structured(cfg, l) && IsChild(cfg, c, l)
    ensures |s.nodes| == |cfg|
    ensures s.nodes[l].state != Failing
    ensures s.nodes[c].state != Inactive && s.nodes[c].state != Finished ==> s.nodes[l].state == Executing
    ensures s.nodes[l].state == Finishing ==> s.nodes[c].state == Finished
    ensures s.nodes[l].state == IterationEnded && s.nodes[l].failure != PreConditionFailed ==>
      s.nodes[c].state == Finished
  {
    ReachableAll(cfg, s);
    assert ListOk(cfg, s, l, c);
    if InMicroStep(s) {
      MidStep(cfg, s, l, c);
    }
  }

  /** When no move is queued, an ended iteration has finished children exactly if it did not
      end by a failed pre-condition (its children are then all inactive), and a list that
      has just started finds every child inactive. */
  lemma IterationBoundaries(cfg: PlanConf, s: Plan, l: nat, c: nat)
    requires WellFormed(cfg) && Reachable(cfg, s) && Structured(cfg, l) && IsChild(cfg, c, l)
    requires NoneIn(s, StateChange) && s.phase != Checking && s.phase != Resolving
    ensures |s.nodes| == |s.snap| == |cfg|
    ensures s.nodes[l].state == IterationEnded ==>
      && (s.nodes[c].state == Finished <==> s.nodes[l].failure != PreConditionFailed)
      && (s.nodes[c].state == Inactive <==> s.nodes[l].failure == PreConditionFailed)
    ensures s.phase == Committing && s.nodes[l].state == Executing && s.snap[l] == Waiting ==>
      s.nodes[c].state == Inactive
  {
    ReachableAll(cfg, s);
    assert ListOk(cfg, s, l, c);
    if s.phase == Committing {
      StepEndsInStep(cfg, s, l, c);
    }
  }

  /** When a list, whether structured or not, has left FINISHING or FAILING in the micro-step
      at hand, every child had finished or was waiting when it decided to; one that had
      finished is still finished, and one that was waiting waits on, or is on its way out of
      WAITING by a move decided at the same time. */
  lemma OnlyWaitingChildrenAreLeft(cfg: PlanConf, s: Plan, l: nat, c: nat)
    requires WellFormed(cfg) && Reachable(cfg, s) && IsChild(cfg, c, l) && l < |cfg| && |s.nodes| == |s.snap| == |cfg|
    requires s.phase == Committing && (s.snap[l] == Finishing || s.snap[l] == Failing)
    requires s.nodes[l].state == IterationEnded || s.nodes[l].state == Finished
    ensures s.snap[c] == Waiting || s.snap[c] == Finished
    ensures s.snap[c] == Finished ==> s.nodes[c].state == Finished
    ensures s.snap[c] == Waiting ==> s.nodes[c].state in {Waiting, Executing, IterationEnded, Finished}
  {
    ReachableAll(cfg, s);
    assert NodeWellFormed(cfg, c) && NodeOk(cfg, s, l) && NodeOk(cfg, s, c);
  }

  /** A run makes at most as many moves as the plan's shape and the repeats allow. */
  lemma {:induction false} RunsAreBounded(cfg: PlanConf, vars: map<nat, Variable>, steps: seq<Step>, t: Plan,
                                          repeats: seq<nat>)
    requires WellFormed(cfg) && IsRun(cfg, Initial(cfg, vars), steps, t)
    requires |repeats| == |cfg| && RepeatsWithin(t, repeats)
    ensures CommitsIn(steps) <= TotalBudget(cfg, repeats, |cfg|)
    ensures forall i | 0 <= i < |cfg| :: t.hist[i].moves <= MoveBudget(cfg, repeats, i)
  {
    var s := Initial(cfg, vars);
    InitialAll(cfg, vars);
    assert TotalMoves(s.hist) == 0 by {
      NothingMovedYet(s.hist);
    }
    BoundedFrom(cfg, s, steps, t, repeats);
  }

  /** So at most as many as the shape and the repeats in it allow. */
  lemma {:induction false} RepeatsBoundTheRun(cfg: PlanConf, vars: map<nat, Variable>, steps: seq<Step>, t: Plan,
                                              repeats: seq<nat>)
    requires WellFormed(cfg) && IsRun(cfg, Initial(cfg, vars), steps, t)
    requires |repeats| == |cfg|
    requires forall i | 0 <= i < |cfg| :: repeats[i] == Repeats(cfg, Initial(cfg, vars), steps, i)
    ensures CommitsIn(steps) <= TotalBudget(cfg, repeats, |cfg|)
  {
    InitialAll(cfg, vars);
    RunKeepsAll(cfg, Initial(cfg, vars), steps, t);
    forall i | 0 <= i < |cfg| ensures t.hist[i].repeats <= repeats[i] {
      RunCountsRepeats(cfg, Initial(cfg, vars), steps, t, i);
    }
    RunsAreBounded(cfg, vars, steps, t, repeats);
  }

  lemma {:induction false} BoundedFrom(cfg: PlanConf, s: Plan, steps: seq<Step>, t: Plan, repeats: seq<nat>)
    requires AllInv(cfg, s) && TotalMoves(s.hist) == 0 && IsRun(cfg, s, steps, t)
    requires |repeats| == |cfg| && RepeatsWithin(t, repeats)
    ensures CommitsIn(steps) <= TotalBudget(cfg, repeats, |cfg|)
    ensures |t.hist| == |cfg|
    ensures forall i | 0 <= i < |cfg| :: t.hist[i].moves <= MoveBudget(cfg, repeats, i)
  {
    RunKeepsAll(cfg, s, steps, t);
    RunCountsMoves(cfg, s, steps, t);
    BudgetHolds(cfg, t, repeats);
  }

  lemma {:induction false} BudgetHolds(cfg: PlanConf, t: Plan, repeats: seq<nat>)
    requires Inv(cfg, t) && TermInv(cfg, t)
    requires |repeats| == |cfg| && RepeatsWithin(t, repeats)
    ensures TotalMoves(t.hist) <= TotalBudget(cfg, repeats, |cfg|)
    ensures forall i | 0 <= i < |cfg| :: t.hist[i].moves <= MoveBudget(cfg, repeats, i)
  {
    TotalWithinBudget(cfg, t, repeats, |cfg|);
    assert t.hist[..|cfg|] == t.hist;
    forall i | 0 <= i < |cfg| ensures t.hist[i].moves <= MoveBudget(cfg, repeats, i) {
      MovesWithinBudget(cfg, t, repeats, i);
    }
  }

  lemma {:induction false} NothingMovedYet(hist: seq<Hist>)
    requires forall i | 0 <= i < |hist| :: hist[i].moves == 0
    ensures TotalMoves(hist) == 0
    decreases |hist|
  {
    if hist != [] {
      NothingMovedYet(hist[..|hist| - 1]);
    }
  }

  /** Running nodes share no mutex, and Assignments at work share no variable. */
  lemma ResourcesAreExclusive(cfg: PlanConf, s: Plan, i: nat, j: nat)
    requires WellFormed(cfg) && Reachable(cfg, s) && i < |cfg| && j < |cfg| && i != j
    ensures |s.nodes| == |cfg|
    ensures Running(s.nodes[i].state) && Running(s.nodes[j].state) ==>
      forall m | m in cfg[i].mutexes :: m !in cfg[j].mutexes
    ensures HoldsVariable(cfg, s, i) && HoldsVariable(cfg, s, j) ==> cfg[i].variable != cfg[j].variable
  {
    ReachableAll(cfg, s);
    if Running(s.nodes[i].state) && Running(s.nodes[j].state) {
      forall m | m in cfg[i].mutexes ensures m !in cfg[j].mutexes {
        MutexesAreExclusive(cfg, s, i, j, m);
      }
    }
    if HoldsVariable(cfg, s, i) && HoldsVariable(cfg, s, j) {
      VariablesAreExclusive(cfg, s, i, j);
    }
  }

  /** A mutex is held by node i exactly if i uses it and is running, has just been granted
      it, or left it behind. */
  lemma HoldersAreExact(cfg: PlanConf, s: Plan, i: nat, m: nat)
    requires WellFormed(cfg) && Reachable(cfg, s) && i < |cfg|
    ensures |s.nodes| == |s.hist| == |cfg|
    ensures s.holders(m) == Some(i) <==> (m in cfg[i].mutexes && HoldsMutexes(s, i))
  {
    ReachableAll(cfg, s);
    assert MutexOk(cfg, s, i, m);
  }

  /** An assignment variable is held by node i exactly if i is an Assignment to it that is
      executing, being undone, or has just been granted it. */
  lemma VariableHoldersAreExact(cfg: PlanConf, s: Plan, i: nat, v: nat)
    requires WellFormed(cfg) && Reachable(cfg, s) && i < |cfg|
    ensures |s.nodes| == |cfg|
    ensures (v in s.varHolders && s.varHolders[v] == i) <==> (v == cfg[i].variable && HoldsVariable(cfg, s, i))
  {
    ReachableAll(cfg, s);
    assert VariableOk(cfg, s, i, v);
  }

  /** A mutex left behind by a move into FINISHED blocks all its users, and is given back
      exactly when its holder is skipped or next tries to acquire it; that attempt fails,
      and leaves the node pending with its own mutexes free. */
  lemma LeaksAreExact(cfg: PlanConf, s: Plan, step: Step, i: nat, m: nat)
    requires WellFormed(cfg) && Reachable(cfg, s) && |cfg| == |s.nodes| == |s.hist| == |s.snap|
    requires Enabled(cfg, s, step) && i < |cfg| && s.hist[i].leaked && m in cfg[i].mutexes
    ensures forall j | 0 <= j < |cfg| && m in cfg[j].mutexes :: !CanAcquire(cfg[j], s)
    ensures Apply(cfg, s, step).holders(m) == Some(i) <==> !EndsLeak(cfg, s, step, i)
    ensures step == Resolve(i) && EndsLeak(cfg, s, step, i) ==>
      var t := ResolveNode(cfg, s, i);
      t.holders(m) == None && t.nodes[i].status == QueuePending && t.nodes[i].queue == PendingQueue
  {
    ReachableAll(cfg, s);
    LeakEndsExactly(cfg, s, step, i, m);
    if step == Resolve(i) && EndsLeak(cfg, s, step, i) {
      OwnLeakFailsTheAttempt(cfg, s, i);
    }
  }

  /** No wake-up by a resource is lost: a pending node that has not been told to try again is
      refused by somebody else still, or was refused by nobody but itself. */
  lemma NoLostResourceWakeUp(cfg: PlanConf, s: Plan, i: nat)
    requires WellFormed(cfg) && Reachable(cfg, s) && i < |cfg| && s.pend.toTell == {}
    ensures |s.nodes| == |cfg|
    ensures Refusal(s.nodes[i]) && i !in s.pend.selfRefused ==> HeldByOther(cfg[i], i, s.holders, s.varHolders)
  {
    ReachableAll(cfg, s);
    assert RefusalOk(cfg, s, i);
  }

  /** When a step gives back a resource that a refused node needs, that node is told before
      anything else happens, and is to try again. */
  lemma {:induction false} FreedResourcesAreAnnounced(cfg: PlanConf, s: Plan, step: Step, steps: seq<Step>, t: Plan,
                                                      j: nat)
    requires WellFormed(cfg) && Reachable(cfg, s) && |cfg| == |s.nodes| == |s.hist| == |s.snap| && j < |cfg|
    requires Enabled(cfg, s, step) && (step.Commit? || step.Resolve?) && step.node != j && Refusal(s.nodes[j])
    requires Freed(cfg, s, Apply(cfg, s, step), j)
    requires IsRun(cfg, Apply(cfg, s, step), steps, t) && AllTelling(steps) && t.pend.toTell == {}
    ensures j < |t.nodes| && TriesAgain(t.nodes[j])
  {
    ReachableAll(cfg, s);
    FreedMeansToTell(cfg, s, step, j);
    StepKeepsAll(cfg, s, step);
    ToldTryAgain(cfg, Apply(cfg, s, step), steps, t, j);
  }

  /** A node is refused by itself alone exactly if it tries with a mutex of its own left behind
      and nobody else has anything it needs. */
  lemma {:induction false} SelfRefusalsAreExact(cfg: PlanConf, s: Plan, step: Step, i: nat)
    requires WellFormed(cfg) && Reachable(cfg, s) && |cfg| == |s.nodes| == |s.hist| == |s.snap| && i < |cfg|
    requires Enabled(cfg, s, step) && i !in s.pend.selfRefused
    ensures i in Apply(cfg, s, step).pend.selfRefused
      <==> step == Resolve(i) && MayTry(cfg, s, i)
           && s.hist[i].leaked && !HeldByOther(cfg[i], i, s.holders, s.varHolders)
  {
    ReachableAll(cfg, s);
    if step == Resolve(i) && MayTry(cfg, s, i) {
      SelfRefusedExactly(cfg, s, i);
    }
  }

  lemma ReachableQueue(cfg: PlanConf, s: Plan)
    requires WellFormed(cfg) && Reachable(cfg, s)
    ensures Inv(cfg, s) && QueueInv(cfg, s)
  {
    ReachableAll(cfg, s);
  }

  /** In a pass over the pending queue, the k-th node gets a turn exactly if none before it
      leaves the queue when it is looked at: not every node need get one. */
  lemma {:induction false} TurnsAreExact(cfg: PlanConf, s: Plan, steps: seq<Step>, t: Plan, k: nat)
    requires WellFormed(cfg) && Reachable(cfg, s) && |cfg| == |s.nodes| == |s.hist| == |s.snap|
    requires Enabled(cfg, s, EndCheck) && IsRun(cfg, Apply(cfg, s, EndCheck), steps, t) && AllTurns(steps)
    requires Sized(cfg, t) && Enabled(cfg, t, EndResolve) && k < |s.pend.queue|
    ensures Resolve(s.pend.queue[k]) in steps <==> forall j | 0 <= j < k :: !Leaves(cfg, s, s.pend.queue[j])
  {
    ReachableQueue(cfg, s);
    TurnsAreGivenUpTo(cfg, s, steps, t, k);
  }

  /** The pending queue has the pending nodes, each once, by priority. */
  lemma PendingQueueIsExact(cfg: PlanConf, s: Plan, i: nat)
    requires WellFormed(cfg) && Reachable(cfg, s)
    ensures |s.nodes| == |cfg| && (i in s.pend.queue <==> i < |cfg| && s.nodes[i].queue == PendingQueue)
    ensures NoDuplicates(s.pend.queue) && InOrder(s.pend.queue, Priorities(cfg))
  {
    ReachableAll(cfg, s);
  }

  /** A node is lost by exactly one thing, and once lost it stays in WAITING for ever. */
  lemma {:induction false} LostNodesAreExact(cfg: PlanConf, s: Plan, step: Step, i: nat, steps: seq<Step>, t: Plan)
    requires WellFormed(cfg) && Reachable(cfg, s) && |cfg| == |s.nodes| == |s.hist| == |s.snap| && i < |cfg|
    requires Enabled(cfg, s, step) && !Stuck(s.nodes[i]) && IsRun(cfg, Apply(cfg, s, step), steps, t)
    ensures |Apply(cfg, s, step).nodes| == |t.nodes| == |cfg|
    ensures Stuck(Apply(cfg, s, step).nodes[i])
      <==> step == Resolve(i) && s.nodes[i].status == QueuePendingCheck && Decide(cfg, s, i) == Stay
    ensures Stuck(Apply(cfg, s, step).nodes[i]) ==> Stuck(t.nodes[i]) && t.nodes[i].state == Waiting
  {
    ReachableAll(cfg, s);
    LostExactlyWhen(cfg, s, step, i);
    StepKeepsInv(cfg, s, step);
    RunKeepsInv(cfg, Apply(cfg, s, step), steps, t);
    if Stuck(Apply(cfg, s, step).nodes[i]) {
      StuckForever(cfg, Apply(cfg, s, step), steps, t, i);
    }
  }

  /** Every activation count is what node type and state say (plus the surplus of a
      Command's Exit), and every local condition is active when it may be read. */
  lemma {:induction false} ActivationsAreAccounted(cfg: PlanConf, s: Plan, i: nat, k: CondIdx)
    requires WellFormed(cfg) && Reachable(cfg, s) && i < |cfg|
    ensures |s.nodes| == |s.hist| == |cfg|
    ensures s.nodes[i].active(k) == Expected(cfg, i, s.nodes[i], s.hist[i], k)
    ensures SlotsOf(cfg, i)(k).Some? && ReadIn(cfg[i].kind, s.nodes[i].state, k) ==> s.nodes[i].active(k) >= 1
  {
    ReachableAll(cfg, s);
    assert CountOk(cfg, s, i, k);
    if SlotsOf(cfg, i)(k).Some? && ReadIn(cfg[i].kind, s.nodes[i].state, k) {
      ReadConditionsAreActive(cfg, s, i, k);
    }
  }

  /** The ancestor condition that a child of list l reads was supplied by list o, the nearest one
      from l upwards that has such a condition, and is shared by the lists between them.  It is
      active exactly while some list within o is running, or, if o inherits no such condition,
      while o keeps its own active. */
  lemma {:induction false} ChildConditionsAreActive(cfg: PlanConf, s: Plan, l: nat, c: nat, k: CondIdx)
      returns (o: nat)
    requires WellFormed(cfg) && Reachable(cfg, s) && IsChild(cfg, c, l) && IsAncestorSlot(k)
    requires Readable(cfg, c)(k).Some?
    ensures Sized(cfg, s) && l < |cfg| && Supplies(cfg, o, l, Collects(k))
    ensures Readable(cfg, c)(k) == SlotsOf(cfg, l)(k) == SlotsOf(cfg, o)(k)
    ensures IsActive(cfg, s, Readable(cfg, c)(k).value)
      <==> SomeListRuns(cfg, s, o) || ActiveItself(cfg, s, o, Collects(k))
  {
    assert NodeWellFormed(cfg, c);
    ReachableAct(cfg, s);
    ReadFromParent(cfg, c, l, k);
    o := Supplier(cfg, l, k);
    ActiveExactly(cfg, s, o, k, Readable(cfg, c)(k).value);
  }

  lemma ReachableAct(cfg: PlanConf, s: Plan)
    requires WellFormed(cfg) && Reachable(cfg, s)
    ensures Sized(cfg, s) && ActInv(cfg, s)
  {
    ReachableAll(cfg, s);
  }

  /** The children of a list that is running, and so those of a structured list whenever they read
      an ancestor condition, find it active. */
  lemma {:induction false} RunningListsKeepActive(cfg: PlanConf, s: Plan, l: nat, c: nat, k: CondIdx)
    requires WellFormed(cfg) && Reachable(cfg, s) && IsChild(cfg, c, l) && IsAncestorSlot(k)
    requires Readable(cfg, c)(k).Some? && l < |cfg| && Sized(cfg, s)
    requires Running(s.nodes[l].state)
             || (Structured(cfg, l) && ReadsAncestors(s.nodes[c].state, Some(s.nodes[l].state)))
    ensures IsActive(cfg, s, Readable(cfg, c)(k).value)
  {
    var o := ChildConditionsAreActive(cfg, s, l, c, k);
    if !Running(s.nodes[l].state) { ReadWhileRunning(cfg, s, l, c); }
    RunsItself(cfg, s, o, l, c);
  }

  lemma ReadWhileRunning(cfg: PlanConf, s: Plan, l: nat, c: nat)
    requires WellFormed(cfg) && Reachable(cfg, s) && IsChild(cfg, c, l) && l < |cfg| && Sized(cfg, s)
    requires Structured(cfg, l) && ReadsAncestors(s.nodes[c].state, Some(s.nodes[l].state))
    ensures Running(s.nodes[l].state)
  {
    ChildrenStayInsideTheList(cfg, s, l, c);
  }

  lemma RunsItself(cfg: PlanConf, s: Plan, o: nat, l: nat, c: nat)
    requires WellFormed(cfg) && Sized(cfg, s) && IsChild(cfg, c, l) && l < |cfg| && Within(cfg, o, l)
    requires Running(s.nodes[l].state)
    ensures SomeListRuns(cfg, s, o)
  {
    assert NodeWellFormed(cfg, c);
    assert RunsWithin(cfg, s, o, l);
  }

  /** Leaving FAILING, an Assignment's variable is back at its value from before the
      iteration, which is the one it had on entry to EXECUTING; leaving EXECUTING for
      ITERATION_ENDED it holds the assigned value. */
  lemma FailedAssignmentsAreUndone(cfg: PlanConf, s: Plan, i: nat, rhs: Val)
    requires WellFormed(cfg) && Reachable(cfg, s) && i < |cfg| && cfg[i].kind == Assignment
    requires |s.nodes| == |s.hist| == |s.snap| == |cfg| && Enabled(cfg, s, Commit(i, rhs))
    ensures var t, v := CommitNode(cfg, s, i, rhs), cfg[i].variable;
      && |t.nodes| == |t.hist| == |cfg|
      && (s.nodes[i].state == Failing ==> VariableOf(t, v).value == s.hist[i].before)
      && (s.nodes[i].state == Executing && t.nodes[i].state == IterationEnded ==>
            VariableOf(t, v).value == s.nodes[i].fixedValue)
      && (t.nodes[i].state == Failing ==> s.nodes[i].ack)
      && t.hist[i].before == (if t.nodes[i].state == Executing then VariableOf(s, v).value else s.hist[i].before)
  {
    ReachableAll(cfg, s);
    assert NodeOk(cfg, s, i);
    CommitShape(cfg, s, i, rhs);
    IterationEndsRolledBackOrAssigned(cfg, s, i, rhs);
  }

  /** Over a whole iteration: if the Assignment fails, the variable is back at the value it had when
      the iteration started; if not, it has been assigned the value computed then. */
  lemma {:induction false} IterationsAssignOrUndo(cfg: PlanConf, s: Plan, i: nat, rhs: Val, steps: seq<Step>, t: Plan,
                                                  other: Val)
    requires WellFormed(cfg) && Reachable(cfg, s) && Sized(cfg, s) && i < |cfg| && cfg[i].kind == Assignment
    requires Enabled(cfg, s, Commit(i, rhs)) && s.nodes[i].next == Some(Executing)
    requires IsRun(cfg, Apply(cfg, s, Commit(i, rhs)), steps, t) && Sized(cfg, t) && Enabled(cfg, t, Commit(i, other))
    requires t.hist[i].executions == s.hist[i].executions + 1
    ensures var u, x := Apply(cfg, t, Commit(i, other)), cfg[i].variable;
      && |u.nodes| == |cfg|
      && (t.nodes[i].state == Failing ==> VariableOf(u, x).value == VariableOf(s, x).value)
      && (t.nodes[i].state == Executing && u.nodes[i].state == IterationEnded ==> VariableOf(u, x).value == rhs)
  {
    ReachableAll(cfg, s);
    StartIsNoted(cfg, s, i, rhs);
    var u := CommitNode(cfg, s, i, rhs);
    StepKeepsAll(cfg, s, Commit(i, rhs));
    RunKeepsAll(cfg, u, steps, t);
    RunRemembers(cfg, u, steps, t, i);
    CommitShape(cfg, t, i, other);
    IterationEndsRolledBackOrAssigned(cfg, t, i, other);
  }

  lemma {:induction false} StartIsNoted(cfg: PlanConf, s: Plan, i: nat, rhs: Val)
    requires AllInv(cfg, s) && i < |cfg| && cfg[i].kind == Assignment
    requires Enabled(cfg, s, Commit(i, rhs)) && s.nodes[i].next == Some(Executing)
    ensures var u := CommitNode(cfg, s, i, rhs);
      && Sized(cfg, u) && u.hist[i].executions == s.hist[i].executions + 1
      && u.hist[i].before == VariableOf(s, cfg[i].variable).value && u.nodes[i].fixedValue == rhs
  {
    CommitShape(cfg, s, i, rhs);
    IterationEndsRolledBackOrAssigned(cfg, s, i, rhs);
  }

  /** An Assignment is queued for execution exactly while it is EXECUTING and not acknowledged, and for
      retraction exactly while it is FAILING and not undone. */
  lemma WorkIsQueued(cfg: PlanConf, s: Plan, i: nat)
    requires WellFormed(cfg) && Reachable(cfg, s) && i < |cfg|
    ensures |s.nodes| == |cfg|
    ensures i in s.toExecute <==> cfg[i].kind == Assignment && s.nodes[i].state == Executing && !s.nodes[i].ack
    ensures i in s.toRetract <==> cfg[i].kind == Assignment && s.nodes[i].state == Failing && !s.nodes[i].aborted
  {
    ReachableAll(cfg, s);
    assert AssignmentOk(cfg, s, i);
  }

  /** Executing sets the variable, raises the flag, and has the node checked. */
  lemma {:induction false} ExecutionIsNoticed(cfg: PlanConf, s: Plan, i: nat)
    requires WellFormed(cfg) && Reachable(cfg, s) && Sized(cfg, s) && Enabled(cfg, s, Execute(i))
    ensures var t := ExecuteNode(cfg, s, i);
      && i < |t.nodes| && VariableOf(t, cfg[i].variable).value == s.nodes[i].fixedValue
      && t.nodes[i].ack && t.nodes[i].queue == Candidates && i !in t.toExecute
  {
    ReachableAll(cfg, s);
    WorkRaisesFlags(cfg, s, i);
    assert NodeOk(cfg, s, i) && AssignmentOk(cfg, s, i);
  }

  /** Retracting puts back the value from before the iteration, and likewise. */
  lemma {:induction false} RetractionIsNoticed(cfg: PlanConf, s: Plan, i: nat)
    requires WellFormed(cfg) && Reachable(cfg, s) && Sized(cfg, s) && Enabled(cfg, s, Retract(i))
    ensures var t := RetractNode(cfg, s, i);
      && i < |t.nodes| && |s.hist| == |cfg| && VariableOf(t, cfg[i].variable).value == s.hist[i].before
      && t.nodes[i].aborted && t.nodes[i].queue == Candidates && i !in t.toRetract
  {
    ReachableAll(cfg, s);
    WorkRaisesFlags(cfg, s, i);
    assert NodeOk(cfg, s, i) && AssignmentOk(cfg, s, i);
  }

  /** Nodes that can try their resources when a pass over the pending queue begins do so in the order
      of the queue: by priority, and among equals by time. */
  lemma {:induction false} AttemptsFollowTheQueue(cfg: PlanConf, s: Plan, steps: seq<Step>, t: Plan, x: nat, y: nat,
                                                  k: nat)
    requires WellFormed(cfg) && Reachable(cfg, s) && Sized(cfg, s) && Enabled(cfg, s, EndCheck)
    requires IsRun(cfg, Apply(cfg, s, EndCheck), steps, t) && AllTurns(steps) && x < y < |s.pend.queue|
    requires MayTry(cfg, s, s.pend.queue[x]) && MayTry(cfg, s, s.pend.queue[y])
    requires k < |steps| && steps[k] == Resolve(s.pend.queue[y])
    ensures Resolve(s.pend.queue[x]) in steps[..k]
  {
    ReachableQueue(cfg, s);
    AttemptsInOrder(cfg, s, steps, t, x, y, k);
  }

  /** A notification is never lost before the node has been evaluated, or has had its turn in the
      pending queue, but for a root that has finished. */
  lemma {:induction false} NotificationsAreKept(cfg: PlanConf, s: Plan, i: nat, steps: seq<Step>, t: Plan)
    requires WellFormed(cfg) && Reachable(cfg, s) && Sized(cfg, s) && Enabled(cfg, s, Notify(i))
    requires IsRun(cfg, Apply(cfg, s, Notify(i)), steps, t) && Check(i) !in steps && Resolve(i) !in steps
    ensures i < |t.nodes| && i < |cfg|
    ensures t.nodes[i].status in {QueueCheck, QueuePendingCheck, QueuePendingTryCheck, QueueTransitionCheck}
            || (cfg[i].parent == None && t.nodes[i].state == Finished)
  {
    ReachableInv(cfg, s);
    assert NodeOk(cfg, s, i) && StillAsked(Notified(s.nodes[i]));
    StepKeepsInv(cfg, s, Notify(i));
    RunKeepsAsked(cfg, Apply(cfg, s, Notify(i)), steps, t, i);
    RunKeepsInv(cfg, Apply(cfg, s, Notify(i)), steps, t);
    assert NodeOk(cfg, t, i);
  }

  /** Where an evaluated candidate goes: nowhere if it stays, to the pending queue if it is to execute
      and needs resources, and otherwise to the moves. */
  lemma {:induction false} CandidatesAreSorted(cfg: PlanConf, s: Plan, i: nat)
    requires WellFormed(cfg) && Reachable(cfg, s) && Sized(cfg, s) && Enabled(cfg, s, Check(i))
    ensures var t, d := CheckNode(cfg, s, i), Decide(cfg, s, i);
      var waits := d.Go? && d.to == Executing && (cfg[i].kind == Assignment || cfg[i].mutexes != []);
      && |t.nodes| == |cfg| && t.nodes == s.nodes[i := t.nodes[i]]
      && (t.nodes[i].queue == NoQueue <==> d == Stay) && (d == Stay ==> t.nodes[i].status == QueueNone)
      && (t.nodes[i].queue == PendingQueue <==> waits) && (waits ==> t.nodes[i].status == QueuePendingTry)
      && (t.nodes[i].queue == StateChange <==> d.Go? && !waits)
      && (d.Go? ==> t.nodes[i].next == Some(d.to))
  {
    OutcomesAlwaysFit(cfg, s, i);
  }

  /** What a turn in the pending queue comes to: a node that was asked to check and would not execute
      any more is dropped or makes its other move; of the rest, those that were told try, and get all
      they need or nothing. */
  lemma {:induction false} TurnsDecide(cfg: PlanConf, s: Plan, i: nat)
    requires WellFormed(cfg) && Reachable(cfg, s) && Sized(cfg, s) && Enabled(cfg, s, Resolve(i))
    ensures var t, d, was := ResolveNode(cfg, s, i), Decide(cfg, s, i), s.nodes[i].status;
      var free := (forall m | m in cfg[i].mutexes :: s.holders(m) == None)
                  && (cfg[i].kind == Assignment ==> cfg[i].variable !in s.varHolders);
      && |t.nodes| == |cfg| && t.nodes == s.nodes[i := t.nodes[i]] && TurnDecides(was, d, free, t.nodes[i])
  {
    ReachableAll(cfg, s);
    assert NodeOk(cfg, s, i);
    OutcomesAlwaysFit(cfg, s, i);
    ResolveShape(cfg, s, i);
    var d := PendingDecision(cfg, s, i);
    ResolvedDecides(s.nodes[i], d, CanAcquire(cfg[i], s));
  }

  /** The record of a pending node with this status after its turn. */
  predicate TurnDecides(was: QueueStatus, d: Decision, free: bool, m: NodeRec) {
    var asked, told := was == QueuePendingCheck || was == QueuePendingTryCheck,
                       was == QueuePendingTry || was == QueuePendingTryCheck;
    var executes := asked ==> d == Go(Executing, NoOutcome, NoFailure);
    && (m.queue == NoQueue <==> asked && d == Stay)
    && (m.queue == StateChange && m.next != Some(Executing) <==> !executes && d != Stay)
    && (m.queue == StateChange && m.next == Some(Executing) <==> executes && told && free)
    && (m.queue == PendingQueue <==> executes && !(told && free))
    && (m.queue == PendingQueue ==> m.status == QueuePending)
  }

  lemma ResolvedDecides(n: NodeRec, d: Decision, free: bool)
    requires PendingStatus(n.status) && n.queue == PendingQueue && n.next == Some(Executing) && d != Illegal
    requires d.Go? && d.to == Executing ==> d == Go(Executing, NoOutcome, NoFailure)
    ensures TurnDecides(n.status, d, free, Resolved(n, d, free))
  {
  }

  /** And to whom the mutexes then belong. */
  lemma {:induction false} TurnsGrantAllOrNothing(cfg: PlanConf, s: Plan, i: nat, m: nat)
    requires WellFormed(cfg) && Reachable(cfg, s) && Sized(cfg, s) && Enabled(cfg, s, Resolve(i))
    ensures var t, n := ResolveNode(cfg, s, i), ResolveNode(cfg, s, i).nodes;
      && |n| == |cfg|
      && (MayTry(cfg, s, i) && m in cfg[i].mutexes ==>
            if n[i].queue == StateChange then s.holders(m) == None && t.holders(m) == Some(i)
            else t.holders(m) == if s.holders(m) == Some(i) then None else s.holders(m))
      && (!MayTry(cfg, s, i) || m !in cfg[i].mutexes ==> t.holders(m) == s.holders(m))
  {
    ReachableInv(cfg, s);
    assert NodeOk(cfg, s, i);
    TurnGrants(cfg, s, i, m);
  }

  lemma {:induction false} TurnGrants(cfg: PlanConf, s: Plan, i: nat, m: nat)
    requires Sized(cfg, s) && i < |cfg|
    requires s.nodes[i].queue == PendingQueue && s.nodes[i].next == Some(Executing) && PendingStatus(s.nodes[i].status)
    ensures var t, n := ResolveNode(cfg, s, i), ResolveNode(cfg, s, i).nodes;
      && |n| == |cfg|
      && (MayTry(cfg, s, i) && m in cfg[i].mutexes ==>
            if n[i].queue == StateChange then s.holders(m) == None && t.holders(m) == Some(i)
            else t.holders(m) == if s.holders(m) == Some(i) then None else s.holders(m))
      && (!MayTry(cfg, s, i) || m !in cfg[i].mutexes ==> t.holders(m) == s.holders(m))
  {
    SuccessStarts(s.nodes[i], Decide(cfg, s, i), CanAcquire(cfg[i], s));
    ResolveShape(cfg, s, i);
  }

  /** A node whose iteration has just ended holds no mutex, and no variable if it has finished either. */
  lemma {:induction false} EndedIterationsHoldNothing(cfg: PlanConf, s: Plan, i: nat, rhs: Val)
    requires WellFormed(cfg) && Reachable(cfg, s) && Sized(cfg, s) && Enabled(cfg, s, Commit(i, rhs))
    requires Running(s.nodes[i].state)
    ensures var t := CommitNode(cfg, s, i, rhs);
      && |t.nodes| == |cfg|
      && (t.nodes[i].state == IterationEnded ==> forall m: nat :: t.holders(m) != Some(i))
      && (t.nodes[i].state == IterationEnded || t.nodes[i].state == Finished ==>
            forall v | v in t.varHolders :: t.varHolders[v] != i)
  {
    ReachableAll(cfg, s);
    EndsWithoutHolding(cfg, s, i, rhs);
    HoldsNothing(cfg, CommitNode(cfg, s, i, rhs), i);
  }

  lemma {:induction false} EndsWithoutHolding(cfg: PlanConf, s: Plan, i: nat, rhs: Val)
    requires Inv(cfg, s) && ResInv(cfg, s) && Enabled(cfg, s, Commit(i, rhs)) && Running(s.nodes[i].state)
    ensures var t := CommitNode(cfg, s, i, rhs);
      && Sized(cfg, t) && ResInv(cfg, t)
      && (t.nodes[i].state == IterationEnded ==> !HoldsMutexes(t, i))
      && (t.nodes[i].state == IterationEnded || t.nodes[i].state == Finished ==> !HoldsVariable(cfg, t, i))
  {
    assert NodeOk(cfg, s, i) && LeakOk(cfg, s, i);
    MoveKeepsRes(cfg, s, i, rhs);
    MoveIsShaped(cfg, s, i, rhs);
    var t := CommitNode(cfg, s, i, rhs);
    if t.nodes[i].state == IterationEnded || t.nodes[i].state == Finished { EndedRecord(cfg, s, i, t); }
  }

  lemma MoveKeepsRes(cfg: PlanConf, s: Plan, i: nat, rhs: Val)
    requires Inv(cfg, s) && ResInv(cfg, s) && Enabled(cfg, s, Commit(i, rhs))
    ensures Sized(cfg, CommitNode(cfg, s, i, rhs)) && ResInv(cfg, CommitNode(cfg, s, i, rhs))
  {
    StepKeepsRes(cfg, s, Commit(i, rhs));
  }

  lemma MoveIsShaped(cfg: PlanConf, s: Plan, i: nat, rhs: Val)
    requires Sized(cfg, s) && i < |cfg| && s.nodes[i].next.Some?
    ensures CommitEffect(cfg, s, i, CommitNode(cfg, s, i, rhs))
    ensures var t := CommitNode(cfg, s, i, rhs);
      t.nodes[i].state == IterationEnded ==> t.hist[i].leaked == s.hist[i].leaked
  {
    CommitShape(cfg, s, i, rhs);
    if s.nodes[i].next == Some(IterationEnded) { NoNewLeak(cfg, s, i, rhs); }
  }

  lemma EndedRecord(cfg: PlanConf, s: Plan, i: nat, t: Plan)
    requires CommitEffect(cfg, s, i, t)
    requires t.nodes[i].state == IterationEnded || t.nodes[i].state == Finished
    ensures !t.hist[i].leaked ==> !HoldsMutexes(t, i)
    ensures !HoldsVariable(cfg, t, i)
  {
  }

  lemma {:induction false} HoldsNothing(cfg: PlanConf, t: Plan, i: nat)
    requires Sized(cfg, t) && ResInv(cfg, t) && i < |cfg|
    ensures !HoldsMutexes(t, i) ==> forall m: nat :: t.holders(m) != Some(i)
    ensures !HoldsVariable(cfg, t, i) ==> forall v | v in t.varHolders :: t.varHolders[v] != i
  {
    forall m: nat ensures !HoldsMutexes(t, i) ==> t.holders(m) != Some(i) {
      assert MutexOk(cfg, t, i, m);
    }
    forall v: nat | v in t.varHolders ensures !HoldsVariable(cfg, t, i) ==> t.varHolders[v] != i {
      assert VariableOk(cfg, t, i, v);
    }
  }

  lemma {:induction false} NoNewLeak(cfg: PlanConf, s: Plan, i: nat, rhs: Val)
    requires Sized(cfg, s) && i < |cfg| && s.nodes[i].next == Some(IterationEnded)
    ensures |CommitNode(cfg, s, i, rhs).hist| == |cfg|
    ensures CommitNode(cfg, s, i, rhs).hist[i].leaked == s.hist[i].leaked
  {
  }
}
