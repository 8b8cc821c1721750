/** The base invariant of a plan in execution: queue bookkeeping, cached decisions,
    legal edges and the outcome table, in every reachable state. */
module PlanInvariant {
  import opened NodeConstants
  import opened Options
  import opened Conditions
  import opened NodeLogic
  import opened PlanMachine

  predicate PendingStatus(q: QueueStatus) {
    q == QueuePending || q == QueuePendingTry || q == QueuePendingCheck || q == QueuePendingTryCheck
  }

  /** Something could make the list leave EXECUTING or FINISHING early. */
  ghost predicate MayInterrupt(cfg: PlanConf, i: nat)
    requires i < |cfg|
  {
    || Exit in cfg[i].user || Invariant in cfg[i].user
    || SomeAncestorHas(cfg, i, Exit) || SomeAncestorHas(cfg, i, Invariant)
  }

  /** What a move decided on the snapshot says about the snapshot. */
  ghost predicate Justified(cfg: PlanConf, snap: seq<NodeState>, i: nat, to: NodeState)
    requires WellFormed(cfg) && i < |cfg| == |snap|
  {
    var from, kind, p := snap[i], cfg[i].kind, cfg[i].parent;
    && LegalEdge(kind, from, to)
    && (p.Some? ==> p.value < |cfg|)
    && (from == Inactive && p.Some? ==>
          snap[p.value] == Executing || (snap[p.value] == Finished && to == Finished))
    && (from == Finished ==> p.Some? && snap[p.value] == Waiting)
    && (kind == List ==>
          && (from == Executing && to == Finishing && End !in cfg[i].user ==> ChildrenIn(cfg, snap, i, {Finished}))
          && (from == Finishing && to == IterationEnded ==> ChildrenIn(cfg, snap, i, {Waiting, Finished}))
          && (from == Failing ==> ChildrenIn(cfg, snap, i, {Waiting, Finished}))
          && (to == Failing ==> MayInterrupt(cfg, i)))
  }

  /** The queue a node is in agrees with its status, but for a node whose status was
      overwritten with PENDING: that one may be on the state-change queue or on none. */
  ghost predicate QueueOk(root: bool, n: NodeRec) {
    && (n.queue == Candidates <==> n.status == QueueCheck)
    && (n.status == QueueTransition || n.status == QueueTransitionCheck ==> n.queue == StateChange)
    && (n.queue == StateChange ==>
          n.status == QueueTransition || n.status == QueueTransitionCheck || PendingStatus(n.status))
    && (n.queue == PendingQueue ==> PendingStatus(n.status))
    && (PendingStatus(n.status) ==> n.state == Waiting)
    && (n.status == QueueNone ==> n.queue == NoQueue)
    && (n.queue == FinishedRoots <==> n.status == QueueDelete)
    && (n.queue == FinishedRoots ==> root && n.state == Finished)
  }

  /** What the cached decision may hold. */
  ghost predicate CacheOk(conf: NodeConf, n: NodeRec) {
    && (n.queue != StateChange ==> n.nextOutcome == NoOutcome && n.nextFailure == NoFailure)
    && (n.queue == PendingQueue ==> n.next == Some(Executing))
    && (n.queue == StateChange ==>
          && n.next.Some?
          && LegalEdge(conf.kind, n.state, n.next.value) && StateOf(conf.kind, n.next.value)
          && OutcomeTable(n.next.value, NewOutcome(n.state, n.next.value, n.outcome, n.nextOutcome),
                          NewFailure(n.state, n.next.value, n.failure, n.nextOutcome, n.nextFailure))
          && (n.next == Some(IterationEnded) ==>
                (NewFailure(n.state, IterationEnded, n.failure, n.nextOutcome, n.nextFailure) == PreConditionFailed
                 <==> n.state == Waiting)))
  }

  /** How far a node has come in the current micro-step. */
  ghost predicate ProgressOk(cfg: PlanConf, s: Plan, i: nat)
    requires WellFormed(cfg) && Sized(cfg, s) && i < |cfg|
  {
    var n := s.nodes[i];
    && (s.phase == Checking || s.phase == Resolving ==> n.state == s.snap[i])
    && (n.queue == StateChange ==>
          && s.phase != Idle && s.phase != Effects
          && n.state == s.snap[i]
          && n.next.Some? && Justified(cfg, s.snap, i, n.next.value))
    && (s.phase == Committing && n.state != s.snap[i] ==>
          && Justified(cfg, s.snap, i, n.state)
          && (n.state == IterationEnded ==> (n.failure == PreConditionFailed <==> s.snap[i] == Waiting)))
  }

  ghost predicate NodeOk(cfg: PlanConf, s: Plan, i: nat)
    requires WellFormed(cfg) && Sized(cfg, s) && i < |cfg|
  {
    var n := s.nodes[i];
    && StateOf(cfg[i].kind, n.state)
    && OutcomeTable(n.state, n.outcome, n.failure)
    && QueueOk(cfg[i].parent.None?, n)
    && CacheOk(cfg[i], n)
    && ProgressOk(cfg, s, i)
  }

  ghost predicate Inv(cfg: PlanConf, s: Plan) {
    && WellFormed(cfg)
    && Sized(cfg, s)
    && forall i | 0 <= i < |cfg| :: NodeOk(cfg, s, i)
  }

  // ----- decisions are justified -----

  lemma EnvOfList(cfg: PlanConf, w: World, i: nat)
    requires WellFormed(cfg) && i < |cfg| && cfg[i].kind == List
    ensures KnownTrue(Env(cfg, w, i), ActionComplete) <==> ChildrenIn(cfg, w.states, i, {Waiting, Finished})
    ensures End !in cfg[i].user ==> (Unmet(Env(cfg, w, i), End) <==> !ChildrenIn(cfg, w.states, i, {Finished}))
  {
    ListLocalSlot(cfg, i, ActionComplete);
    ListLocalSlot(cfg, i, End);
  }

  /** The local slots of a list: its own conditions, the two children conditions. */
  lemma {:induction false} ListLocalSlot(cfg: PlanConf, i: nat, k: CondIdx)
    requires WellFormed(cfg) && i < |cfg| && cfg[i].kind == List && !IsAncestorSlot(k)
    ensures Readable(cfg, i)(k) == SlotsOf(cfg, i)(k)
         == if k == ActionComplete then Some(AllWaitingOrFinished(i))
            else if k in cfg[i].user then Some(User(i, k))
            else if k == End then Some(AllFinished(i))
            else None
  {
  }

  /** A user condition a list lacks is a null slot. */
  lemma ListLacks(cfg: PlanConf, w: World, i: nat, k: CondIdx)
    requires WellFormed(cfg) && i < |cfg| && cfg[i].kind == List
    requires k == Exit || k == Invariant
    ensures Env(cfg, w, i)(k).Some? <==> k in cfg[i].user
  {
    ListLocalSlot(cfg, i, k);
    assert Readable(cfg, i)(k) == if k in cfg[i].user then Some(User(i, k)) else None;
    assert Env(cfg, w, i)(k) == EvalSlot(cfg, w, Readable(cfg, i)(k));
  }

  lemma InterruptionNeedsCause(cfg: PlanConf, w: World, i: nat)
    requires WellFormed(cfg) && i < |cfg| && cfg[i].kind == List
    requires Interruption(Env(cfg, w, i)).Interrupt?
    ensures MayInterrupt(cfg, i)
  {
    AncestorConditionIsFold(cfg, w, i, AncestorExit);
    AncestorConditionIsFold(cfg, w, i, AncestorInvariant);
    ListLacks(cfg, w, i, Exit);
    ListLacks(cfg, w, i, Invariant);
  }

  lemma DecisionIsJustified(cfg: PlanConf, s: Plan, i: nat)
    requires WellFormed(cfg) && Sized(cfg, s) && i < |cfg| && StateOf(cfg[i].kind, s.nodes[i].state)
    requires Decide(cfg, s, i).Go?
    ensures Justified(cfg, StatesOf(s), i, Decide(cfg, s, i).to)
  {
    assert NodeWellFormed(cfg, i);
    var n, kind, c := s.nodes[i], cfg[i].kind, Env(cfg, WorldOf(s), i);
    DestIsLegal(kind, n.state, n.failure, ParentState(cfg, s, i), c);
    if kind == List {
      EnvOfList(cfg, WorldOf(s), i);
      if Interruption(c).Interrupt? {
        InterruptionNeedsCause(cfg, WorldOf(s), i);
      }
    }
  }

  /** A node that has just decided to move, put on the state-change queue. */
  lemma QueuedIsOk(cfg: PlanConf, s: Plan, i: nat, m: NodeRec)
    requires Inv(cfg, s) && i < |cfg|
    requires s.phase == Checking || s.phase == Resolving
    requires s.nodes[i].queue != StateChange
    requires Decide(cfg, s, i).Go?
    requires m == Decided(s.nodes[i], Decide(cfg, s, i)).(queue := StateChange, status := m.status)
    requires m.status == QueueTransition || (PendingStatus(m.status) && m.state == Waiting)
    ensures NodeOk(cfg, SetNode(s, i, m), i)
  {
    assert NodeOk(cfg, s, i);
    DecidedCacheIsOk(cfg[i], s.nodes[i], ParentState(cfg, s, i), Env(cfg, WorldOf(s), i), m);
    DecisionIsJustified(cfg, s, i);
    assert StatesOf(s) == s.snap by {
      forall j | 0 <= j < |cfg| ensures s.nodes[j].state == s.snap[j] {
        assert NodeOk(cfg, s, j);
      }
    }
    assert ProgressOk(cfg, SetNode(s, i, m), i);
    assert QueueOk(cfg[i].parent.None?, m);
  }

  lemma DecidedCacheIsOk(conf: NodeConf, n: NodeRec, parent: Option<NodeState>, c: Conds, m: NodeRec)
    requires StateOf(conf.kind, n.state) && OutcomeTable(n.state, n.outcome, n.failure)
    requires n.nextOutcome == NoOutcome && n.nextFailure == NoFailure
    requires Dest(conf.kind, n.state, n.failure, parent, c).Go?
    requires m == Decided(n, Dest(conf.kind, n.state, n.failure, parent, c)).(queue := StateChange, status := m.status)
    ensures CacheOk(conf, m)
  {
  }

  /** A decision depends on the states and the node's failure type, the values and the flags. */
  lemma {:induction false} SameDecision(cfg: PlanConf, s: Plan, t: Plan, i: nat)
    requires i < |cfg| == |s.nodes| == |t.nodes| && t.values == s.values && t.handles == s.handles
    requires forall j | 0 <= j < |cfg| :: SameBasis(s.nodes[j], t.nodes[j])
    ensures Decide(cfg, s, i) == Decide(cfg, t, i)
  {
    assert SameBasis(s.nodes[i], t.nodes[i]);
    assert StatesOf(s) == StatesOf(t) by {
      forall j | 0 <= j < |cfg|
        ensures s.nodes[j].state == t.nodes[j].state { assert SameBasis(s.nodes[j], t.nodes[j]); }
    }
    assert WorldOf(s).acks == WorldOf(t).acks && WorldOf(s).aborts == WorldOf(t).aborts by {
      forall j | 0 <= j < |cfg|
        ensures s.nodes[j].ack == t.nodes[j].ack && s.nodes[j].aborted == t.nodes[j].aborted
      {
        assert SameBasis(s.nodes[j], t.nodes[j]);
      }
    }
    var p := cfg[i].parent;
    if p.Some? && p.value < |cfg| { assert SameBasis(s.nodes[p.value], t.nodes[p.value]); }
  }

  predicate SameBasis(n: NodeRec, m: NodeRec) {
    n.state == m.state && n.failure == m.failure && n.ack == m.ack && n.aborted == m.aborted
  }

  // ----- every step keeps the invariant -----

  lemma OthersKeep(cfg: PlanConf, s: Plan, t: Plan, i: nat)
    requires Inv(cfg, s) && i < |cfg|
    requires |t.nodes| == |s.nodes| && t.nodes == s.nodes[i := t.nodes[i]]
    requires t.snap == s.snap && t.phase == s.phase && |t.hist| == |s.hist|
    requires NodeOk(cfg, t, i)
    ensures Inv(cfg, t)
  {
    forall j | 0 <= j < |cfg| ensures NodeOk(cfg, t, j) {
      assert NodeOk(cfg, s, j);
    }
  }

  /** m is n after one of the two kinds of notification, or untouched; an Assignment's
      flags may have been raised as well. */
  ghost predicate Touched(n: NodeRec, m: NodeRec) {
    && m == n.(status := m.status, queue := m.queue, ack := m.ack, aborted := m.aborted)
    && ((m.status == n.status && m.queue == n.queue)
        || (m.status == Notified(n).status && m.queue == Notified(n).queue)
        || (m.status == ResourceAvailable(n).status && m.queue == n.queue))
  }

  lemma TouchedQueue(root: bool, n: NodeRec, m: NodeRec)
    requires QueueOk(root, n) && Touched(n, m)
    ensures QueueOk(root, m)
    ensures m.queue == n.queue || (n.queue == NoQueue && m.queue == Candidates)
  {
  }

  lemma NotifiedIsOk(cfg: PlanConf, s: Plan, i: nat, t: Plan)
    requires Inv(cfg, s) && Sized(cfg, t) && i < |cfg|
    requires t.snap == s.snap && t.phase == s.phase
    requires Touched(s.nodes[i], t.nodes[i])
    ensures NodeOk(cfg, t, i)
  {
    assert NodeOk(cfg, s, i);
    TouchedQueue(cfg[i].parent.None?, s.nodes[i], t.nodes[i]);
  }

  lemma CheckKeeps(cfg: PlanConf, s: Plan, i: nat)
    requires Inv(cfg, s) && Enabled(cfg, s, Check(i))
    ensures Inv(cfg, CheckNode(cfg, s, i))
  {
    assert NodeOk(cfg, s, i);
    var t := CheckNode(cfg, s, i);
    var d := Decide(cfg, s, i);
    if d.Go? && t.nodes[i].queue == StateChange {
      QueuedIsOk(cfg, s, i, t.nodes[i]);
    } else {
      SetAsideIsOk(cfg, s, i, d);
    }
    OthersKeep(cfg, s, t, i);
  }

  /** A candidate that stays, or that waits for resources first. */
  lemma SetAsideIsOk(cfg: PlanConf, s: Plan, i: nat, d: Decision)
    requires Inv(cfg, s) && Enabled(cfg, s, Check(i)) && d == Decide(cfg, s, i)
    requires !d.Go? || (d.to == Executing && NeedsResources(cfg[i]))
    ensures NodeOk(cfg, CheckNode(cfg, s, i), i)
  {
    assert NodeOk(cfg, s, i);
    if d.Go? {
      ExecutingOnlyFromWaiting(cfg[i].kind, s.nodes[i].state, s.nodes[i].failure,
                               ParentState(cfg, s, i), Env(cfg, WorldOf(s), i));
    }
  }

  /** Only a waiting node decides to execute, and it records no outcome with that. */
  lemma ExecutingOnlyFromWaiting(kind: Kind, s: NodeState, f: FailureType, parent: Option<NodeState>, c: Conds)
    requires StateOf(kind, s) && Dest(kind, s, f, parent, c).Go? && Dest(kind, s, f, parent, c).to == Executing
    ensures s == Waiting && Dest(kind, s, f, parent, c) == Go(Executing, NoOutcome, NoFailure)
  {
  }

  lemma ResolveShape(cfg: PlanConf, s: Plan, i: nat)
    requires Sized(cfg, s) && i < |cfg|
    ensures var t := ResolveNode(cfg, s, i);
      && Sized(cfg, t) && t.nodes == s.nodes[i := t.nodes[i]]
      && t.snap == s.snap && t.phase == s.phase
      && (t.hist == s.hist || t.hist == s.hist[i := s.hist[i].(leaked := false)])
      && t.vars == s.vars && t.toExecute == s.toExecute && t.toRetract == s.toRetract
      && t.values == s.values && t.handles == s.handles
      && t.nodes[i] == Resolved(s.nodes[i], Decide(cfg, s, i), CanAcquire(cfg[i], s))
      && t.nodes[i].state == s.nodes[i].state
  {
  }

  lemma ResolveKeeps(cfg: PlanConf, s: Plan, i: nat)
    requires Inv(cfg, s) && Enabled(cfg, s, Resolve(i))
    ensures Inv(cfg, ResolveNode(cfg, s, i))
  {
    var t := ResolveNode(cfg, s, i);
    ResolveShape(cfg, s, i);
    ResolvedIsOk(cfg, s, i);
    assert NodeOk(cfg, t, i) by {
      assert NodeOk(cfg, SetNode(s, i, t.nodes[i]), i);
    }
    OthersKeep(cfg, s, t, i);
  }

  /** A pending node that stays pending or is dropped. */
  lemma StillWaitingIsOk(conf: NodeConf, n: NodeRec, d: Decision, free: bool)
    requires QueueOk(conf.parent.None?, n) && CacheOk(conf, n) && n.queue == PendingQueue
    requires d.Go? && d.to == Executing ==> d == Go(Executing, NoOutcome, NoFailure)
    requires Resolved(n, d, free).queue != StateChange
    ensures var m := Resolved(n, d, free);
      && QueueOk(conf.parent.None?, m) && CacheOk(conf, m)
      && m.state == n.state && m.outcome == n.outcome && m.failure == n.failure
  {
  }

  lemma ResolvedIsOk(cfg: PlanConf, s: Plan, i: nat)
    requires Inv(cfg, s) && Enabled(cfg, s, Resolve(i))
    ensures NodeOk(cfg, SetNode(s, i, ResolveNode(cfg, s, i).nodes[i]), i)
  {
    assert NodeOk(cfg, s, i);
    var free := CanAcquire(cfg[i], s);
    var d := PendingDecision(cfg, s, i);
    var m := Resolved(s.nodes[i], d, free);
    if m.queue != StateChange {
      StillWaitingIsOk(cfg[i], s.nodes[i], d, free);
      SameProgress(cfg, s, i, m);
    } else if s.nodes[i].status == QueuePendingTry {
      GrantedIsOk(cfg, s, i);
    } else {
      QueuedAfterWaiting(cfg, s, i, d, free);
    }
  }

  lemma PendingDecision(cfg: PlanConf, s: Plan, i: nat) returns (d: Decision)
    requires Sized(cfg, s) && i < |cfg| && StateOf(cfg[i].kind, s.nodes[i].state)
    ensures d == Decide(cfg, s, i)
    ensures d.Go? && d.to == Executing ==> d == Go(Executing, NoOutcome, NoFailure)
  {
    d := Decide(cfg, s, i);
    if d.Go? && d.to == Executing {
      ExecutingOnlyFromWaiting(cfg[i].kind, s.nodes[i].state, s.nodes[i].failure,
                               ParentState(cfg, s, i), Env(cfg, WorldOf(s), i));
    }
  }

  lemma SameProgress(cfg: PlanConf, s: Plan, i: nat, m: NodeRec)
    requires Inv(cfg, s) && i < |cfg|
    requires QueueOk(cfg[i].parent.None?, m) && CacheOk(cfg[i], m) && m.queue != StateChange
    requires m.state == s.nodes[i].state && m.outcome == s.nodes[i].outcome && m.failure == s.nodes[i].failure
    ensures NodeOk(cfg, SetNode(s, i, m), i)
  {
    assert NodeOk(cfg, s, i);
  }

  lemma QueuedAfterWaiting(cfg: PlanConf, s: Plan, i: nat, d: Decision, free: bool)
    requires Inv(cfg, s) && Enabled(cfg, s, Resolve(i))
    requires d == Decide(cfg, s, i)
    requires s.nodes[i].status != QueuePendingTry
    requires Resolved(s.nodes[i], d, free).queue == StateChange
    ensures NodeOk(cfg, SetNode(s, i, Resolved(s.nodes[i], d, free)), i)
  {
    assert NodeOk(cfg, s, i);
    QueuedIsOk(cfg, s, i, Resolved(s.nodes[i], d, free));
  }

  /** A pending node whose resources were granted without another evaluation. */
  lemma GrantedIsOk(cfg: PlanConf, s: Plan, i: nat)
    requires Inv(cfg, s) && i < |cfg| && s.phase == Resolving
    requires s.nodes[i].queue == PendingQueue
    ensures NodeOk(cfg, SetNode(s, i, s.nodes[i].(status := QueueTransition, queue := StateChange)), i)
  {
    assert NodeOk(cfg, s, i);
    assert NodeWellFormed(cfg, i);
  }

  /** n after its cached decision has been committed. */
  ghost predicate Advanced(root: bool, n: NodeRec, m: NodeRec)
    requires n.next.Some?
  {
    && m.state == n.next.value && m.next == None
    && m.queue == (if m.state == Finished && root then FinishedRoots else Candidates)
    && m.status == (if m.state == Finished && root then QueueDelete else QueueCheck)
    && m.nextOutcome == NoOutcome && m.nextFailure == NoFailure
    && m.outcome == NewOutcome(n.state, m.state, n.outcome, n.nextOutcome)
    && m.failure == NewFailure(n.state, m.state, n.failure, n.nextOutcome, n.nextFailure)
  }

  /** Activating a flag clears it; starting fixes the value to be assigned. */
  ghost predicate FlagEffect(kind: Kind, n: NodeRec, m: NodeRec, rhs: Val) {
    && m.ack == (n.ack && !(kind == Assignment && m.state == Executing && n.active(ActionComplete) == 0))
    && m.aborted == (n.aborted && !(kind == Assignment && m.state == Failing && n.active(AbortComplete) == 0))
    && m.fixedValue == (if kind == Assignment && m.state == Executing then rhs else n.fixedValue)
  }

  ghost predicate CountEffect(kind: Kind, slots: Slots, n: NodeRec, m: NodeRec, k: CondIdx) {
    m.active(k) == n.active(k) + if slots(k).Some? then Delta(kind, n.state, m.state, k) else 0
  }

  /** m has moved on from n. */
  ghost predicate HasMoved(kind: Kind, isRoot: bool, slots: Slots, n: NodeRec, rhs: Val, m: NodeRec)
    requires n.next.Some?
  {
    && Advanced(isRoot, n, m)
    && FlagEffect(kind, n, m, rhs)
    && forall k: CondIdx :: CountEffect(kind, slots, n, m, k)
  }

  lemma CommittedHasMoved(kind: Kind, isRoot: bool, slots: Slots, n: NodeRec, rhs: Val)
    requires n.next.Some?
    ensures HasMoved(kind, isRoot, slots, n, rhs, Committed(kind, isRoot, slots, n, rhs))
  {
  }

  ghost predicate HistAdvanced(h: Hist, g: Hist, from: NodeState, to: NodeState) {
    && g.moves == h.moves + 1
    && g.waits == h.waits + (if to == Waiting then 1 else 0)
    && g.resets == h.resets + (if from == Finished then 1 else 0)
    && g.repeats == h.repeats + (if from == IterationEnded && to == Waiting then 1 else 0)
    && g.executions == h.executions + (if to == Executing then 1 else 0)
  }

  /** The effect of committing node i on all nodes and their history. */
  ghost predicate CommitEffect(cfg: PlanConf, s: Plan, i: nat, t: Plan) {
    && Sized(cfg, s) && Sized(cfg, t) && i < |cfg| && s.nodes[i].next.Some?
    && t.phase == s.phase && t.snap == s.snap
    && Advanced(cfg[i].parent.None?, s.nodes[i], t.nodes[i])
    && (forall j | 0 <= j < |cfg| && j != i ::
          && Touched(s.nodes[j], t.nodes[j])
          && (IsChild(cfg, j, i) && Wakes(t.nodes[i].state, s.nodes[j].state) ==> t.nodes[j] == Notified(s.nodes[j])))
    && t.hist == s.hist[i := t.hist[i]]
    && HistAdvanced(s.hist[i], t.hist[i], s.nodes[i].state, t.nodes[i].state)
  }

  lemma {:induction false} CommitShape(cfg: PlanConf, s: Plan, i: nat, rhs: Val)
    requires Sized(cfg, s) && i < |cfg| && s.nodes[i].next.Some?
    ensures CommitEffect(cfg, s, i, CommitNode(cfg, s, i, rhs))
    ensures HasMoved(cfg[i].kind, cfg[i].parent.None?, SlotsOf(cfg, i), s.nodes[i], rhs,
                     CommitNode(cfg, s, i, rhs).nodes[i])
  {
    CommitFrame(cfg, s, i, rhs);
    AfterMoves(cfg, s, i, rhs, CommitNode(cfg, s, i, rhs));
  }

  lemma {:induction false} AfterMoves(cfg: PlanConf, s: Plan, i: nat, rhs: Val, t: Plan)
    requires Sized(cfg, s) && Sized(cfg, t) && i < |cfg| && s.nodes[i].next.Some?
    requires t.phase == s.phase && t.snap == s.snap
    requires t.nodes[i] == Committed(cfg[i].kind, cfg[i].parent.None?, SlotsOf(cfg, i), s.nodes[i], rhs)
    requires forall j | 0 <= j < |cfg| && j != i ::
      t.nodes[j] == Woken(IsChild(cfg, j, i), s.nodes[i].next.value, s.nodes[j])
    requires t.hist == s.hist[i := t.hist[i]]
    requires HistAdvanced(s.hist[i], t.hist[i], s.nodes[i].state, s.nodes[i].next.value)
    ensures CommitEffect(cfg, s, i, t)
    ensures HasMoved(cfg[i].kind, cfg[i].parent.None?, SlotsOf(cfg, i), s.nodes[i], rhs, t.nodes[i])
  {
    CommittedHasMoved(cfg[i].kind, cfg[i].parent.None?, SlotsOf(cfg, i), s.nodes[i], rhs);
    forall j | 0 <= j < |cfg| && j != i
      ensures Touched(s.nodes[j], t.nodes[j])
      ensures IsChild(cfg, j, i) && Wakes(t.nodes[i].state, s.nodes[j].state) ==> t.nodes[j] == Notified(s.nodes[j])
    {
      NotifiedIsTouched(s.nodes[j]);
    }
  }

  lemma {:induction false} CommitFrame(cfg: PlanConf, s: Plan, i: nat, rhs: Val)
    requires Sized(cfg, s) && i < |cfg| && s.nodes[i].next.Some?
    ensures var t := CommitNode(cfg, s, i, rhs);
      && Sized(cfg, t) && t.phase == s.phase && t.snap == s.snap
      && t.nodes[i] == Committed(cfg[i].kind, cfg[i].parent.None?, SlotsOf(cfg, i), s.nodes[i], rhs)
      && (forall j | 0 <= j < |cfg| && j != i ::
            t.nodes[j] == Woken(IsChild(cfg, j, i), s.nodes[i].next.value, s.nodes[j]))
      && t.hist == s.hist[i := t.hist[i]]
      && HistAdvanced(s.hist[i], t.hist[i], s.nodes[i].state, s.nodes[i].next.value)
  {
  }

  lemma NotifiedIsTouched(n: NodeRec)
    ensures Touched(n, Notified(n)) && Touched(n, n) && Touched(n, ResourceAvailable(n))
    ensures Touched(n, Notified(n.(ack := true))) && Touched(n, Notified(n.(aborted := true)))
  {
  }

  lemma CommitKeeps(cfg: PlanConf, s: Plan, i: nat, t: Plan)
    requires Inv(cfg, s) && s.phase == Committing && CommitEffect(cfg, s, i, t) && s.nodes[i].queue == StateChange
    ensures Inv(cfg, t)
  {
    forall j | 0 <= j < |cfg| ensures NodeOk(cfg, t, j) {
      assert NodeOk(cfg, s, j);
      if j != i {
        NotifiedIsOk(cfg, s, j, t);
      }
    }
  }

  predicate OnlyTouches(step: Step) {
    !step.Check? && !step.Resolve? && !step.Commit?
  }

  lemma TouchShape(cfg: PlanConf, s: Plan, step: Step)
    requires Sized(cfg, s) && Enabled(cfg, s, step) && OnlyTouches(step)
    ensures Sized(cfg, Apply(cfg, s, step))
    ensures forall j | 0 <= j < |cfg| :: Touched(s.nodes[j], Apply(cfg, s, step).nodes[j])
    ensures Apply(cfg, s, step).hist == s.hist
  {
    var t := Apply(cfg, s, step);
    forall j | 0 <= j < |cfg| ensures Touched(s.nodes[j], t.nodes[j]) {
      NotifiedIsTouched(s.nodes[j]);
      TouchedRecord(cfg, s, step, j);
    }
  }

  lemma TouchedRecord(cfg: PlanConf, s: Plan, step: Step, j: nat)
    requires Sized(cfg, s) && Enabled(cfg, s, step) && OnlyTouches(step) && j < |cfg|
    ensures var n, m := s.nodes[j], Apply(cfg, s, step).nodes[j];
      || m == n || m == Notified(n) || m == ResourceAvailable(n)
      || m == Notified(n.(ack := true)) || m == Notified(n.(aborted := true))
  {
  }

  lemma CheckShape(cfg: PlanConf, s: Plan, i: nat)
    requires Sized(cfg, s) && i < |cfg|
    ensures var t := CheckNode(cfg, s, i);
      && t == s.(nodes := s.nodes[i := t.nodes[i]], pend := t.pend)
      && t.nodes[i] == Checked(s.nodes[i], Decide(cfg, s, i), NeedsResources(cfg[i]))
      && t.nodes[i].state == s.nodes[i].state
  {
  }

  lemma TouchKeeps(cfg: PlanConf, s: Plan, i: nat, t: Plan)
    requires Inv(cfg, s) && Sized(cfg, t) && i < |cfg|
    requires t.snap == s.snap && t.phase == s.phase
    requires t.nodes == s.nodes[i := t.nodes[i]] && Touched(s.nodes[i], t.nodes[i])
    ensures Inv(cfg, t)
  {
    NotifiedIsOk(cfg, s, i, t);
    OthersKeep(cfg, s, t, i);
  }

  /** Steps that leave every node and the snapshot alone. */
  lemma PhaseKeeps(cfg: PlanConf, s: Plan, step: Step)
    requires Inv(cfg, s) && Enabled(cfg, s, step)
    requires step.Begin? || step.EndCheck? || step.NextBatch? || step.EndResolve? || step.Again?
             || step.EndLoop? || step.EndEffects?
    ensures Inv(cfg, Apply(cfg, s, step))
  {
    var t := Apply(cfg, s, step);
    forall j | 0 <= j < |cfg| ensures NodeOk(cfg, t, j) {
      assert NodeOk(cfg, s, j);
    }
  }

  lemma StepKeepsInv(cfg: PlanConf, s: Plan, step: Step)
    requires Inv(cfg, s) && Enabled(cfg, s, step)
    ensures Inv(cfg, Apply(cfg, s, step))
  {
    var t := Apply(cfg, s, step);
    match step {
      case Check(i) => CheckKeeps(cfg, s, i);
      case Resolve(i) => ResolveKeeps(cfg, s, i);
      case Commit(i, rhs) =>
        CommitShape(cfg, s, i, rhs);
        CommitKeeps(cfg, s, i, t);
      case _ => TouchStepKeeps(cfg, s, step);
    }
  }

  lemma TouchStepKeeps(cfg: PlanConf, s: Plan, step: Step)
    requires Inv(cfg, s) && Enabled(cfg, s, step) && OnlyTouches(step)
    ensures Inv(cfg, Apply(cfg, s, step))
  {
    var t := Apply(cfg, s, step);
    if step.Notify? || step.ResourceFreed? || step.Execute? || step.Retract? {
      NotifiedIsTouched(s.nodes[step.node]);
      TouchKeeps(cfg, s, step.node, t);
    } else {
      PhaseKeeps(cfg, s, step);
    }
  }

  lemma InitialInv(cfg: PlanConf, vars: map<nat, Variable>)
    requires WellFormed(cfg)
    ensures Inv(cfg, Initial(cfg, vars))
  {
  }

  lemma {:induction false} RunKeepsInv(cfg: PlanConf, s: Plan, steps: seq<Step>, t: Plan)
    requires Inv(cfg, s) && IsRun(cfg, s, steps, t)
    ensures Inv(cfg, t)
    decreases |steps|
  {
    if steps != [] {
      StepKeepsInv(cfg, s, steps[0]);
      RunKeepsInv(cfg, Apply(cfg, s, steps[0]), steps[1..], t);
    }
  }

  lemma ReachableInv(cfg: PlanConf, s: Plan)
    requires WellFormed(cfg) && Reachable(cfg, s)
    ensures Inv(cfg, s)
  {
    var vars, steps :| IsRun(cfg, Initial(cfg, vars), steps, s);
    InitialInv(cfg, vars);
    RunKeepsInv(cfg, Initial(cfg, vars), steps, s);
  }

  lemma {:induction false} RunThenStep(cfg: PlanConf, s: Plan, steps: seq<Step>, t: Plan, step: Step)
    requires IsRun(cfg, s, steps, t) && Sized(cfg, t) && Enabled(cfg, t, step)
    requires Sized(cfg, Apply(cfg, t, step))
    ensures IsRun(cfg, s, steps + [step], Apply(cfg, t, step))
    decreases |steps|
  {
    if steps == [] {
      assert [] + [step] == [step];
      assert IsRun(cfg, Apply(cfg, t, step), [], Apply(cfg, t, step));
    } else {
      RunThenStep(cfg, Apply(cfg, s, steps[0]), steps[1..], t, step);
      assert (steps + [step])[1..] == steps[1..] + [step];
    }
  }

  lemma {:induction false} ReachStep(cfg: PlanConf, s: Plan, step: Step) returns (t: Plan)
    requires WellFormed(cfg) && Reachable(cfg, s)
    requires Sized(cfg, s) && Enabled(cfg, s, step)
    ensures t == Apply(cfg, s, step) && Reachable(cfg, t) && Sized(cfg, t)
  {
    t := Apply(cfg, s, step);
    ReachableInv(cfg, s);
    StepKeepsInv(cfg, s, step);
    var vars, steps :| IsRun(cfg, Initial(cfg, vars), steps, s);
    RunThenStep(cfg, Initial(cfg, vars), steps, s, step);
  }
}
