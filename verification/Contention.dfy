/** The pending queue and the waiting lists: who gets a turn, and why a node that waits for its
    resources waits. */
module Contention {
  import opened NodeConstants
  import opened Options
  import opened Conditions
  import opened NodeLogic
  import opened WalkedQueue
  import opened PlanMachine
  import opened PlanInvariant
  import opened Resources

  /** The pending queue holds the pending nodes, once each and by priority; what is still to be
      looked at or has a turn due is pending. */
  ghost predicate QueueInv(cfg: PlanConf, s: Plan)
    requires Sized(cfg, s)
  {
    var p := s.pend;
    && NoDuplicates(p.queue) && InOrder(p.queue, Priorities(cfg))
    && (forall i: nat :: i in p.queue <==> i < |cfg| && s.nodes[i].queue == PendingQueue)
    && ScheduleOk(p) && (s.phase != Resolving ==> p.turns == p.walk == [])
  }

  ghost predicate ScheduleOk(p: Pending) {
    NoDuplicates(p.turns + p.walk) && forall i | i in p.turns + p.walk :: i in p.queue
  }

  lemma QueueKept(cfg: PlanConf, s: Plan, t: Plan)
    requires Sized(cfg, s) && QueueInv(cfg, s) && Sized(cfg, t)
    requires t.pend.queue == s.pend.queue && ScheduleOk(t.pend)
    requires t.phase != Resolving ==> t.pend.turns == t.pend.walk == []
    requires forall j | 0 <= j < |cfg| :: t.nodes[j].queue == PendingQueue <==> s.nodes[j].queue == PendingQueue
    ensures QueueInv(cfg, t)
  {
  }

  lemma CheckKeepsQueue(cfg: PlanConf, s: Plan, i: nat)
    requires Inv(cfg, s) && QueueInv(cfg, s) && Enabled(cfg, s, Check(i))
    ensures Sized(cfg, CheckNode(cfg, s, i)) && QueueInv(cfg, CheckNode(cfg, s, i))
  {
    CheckShape(cfg, s, i);
    if CheckNode(cfg, s, i).nodes[i].queue == PendingQueue {
      InsertedOnce(s.pend.queue, i, Priorities(cfg));
      var _ := InsertedInOrder(s.pend.queue, i, Priorities(cfg));
    } else {
      QueueKept(cfg, s, CheckNode(cfg, s, i));
    }
  }

  /** After its turn a node has left the schedule, and perhaps the queue. */
  lemma TurnKeepsQueue(cfg: PlanConf, s: Plan, i: nat)
    requires Inv(cfg, s) && QueueInv(cfg, s) && Enabled(cfg, s, Resolve(i))
    ensures Sized(cfg, ResolveNode(cfg, s, i)) && QueueInv(cfg, ResolveNode(cfg, s, i))
  {
    var t := ResolveNode(cfg, s, i);
    ResolveShape(cfg, s, i);
    assert NodeOk(cfg, s, i);
    ScheduleShrinks(s.pend, t.pend, i);
    if t.nodes[i].queue == PendingQueue {
      QueueKept(cfg, s, t);
    } else {
      WithoutKeeps(s.pend.queue, i, Priorities(cfg));
    }
  }

  lemma {:induction false} ScheduleShrinks(p: Pending, q: Pending, i: nat)
    requires NoDuplicates(p.queue) && ScheduleOk(p) && p.turns != [] && p.turns[0] == i
    requires q.turns == p.turns[1..] && q.walk == p.walk
    requires q.queue == p.queue || q.queue == Without(p.queue, i)
    ensures ScheduleOk(q)
  {
    WithoutKeeps(p.queue, i, (j: nat) => 0);
    var before, after := p.turns + p.walk, q.turns + q.walk;
    assert after == before[1..];
    assert before[0] == i;
    forall j | j in after ensures j in q.queue {
      var k :| 0 <= k < |after| && after[k] == j;
      assert before[k + 1] == j && before[0] != before[k + 1];
    }
  }

  lemma BatchKeepsQueue(cfg: PlanConf, s: Plan)
    requires Inv(cfg, s) && QueueInv(cfg, s) && Enabled(cfg, s, NextBatch)
    ensures QueueInv(cfg, Apply(cfg, s, NextBatch))
  {
    BatchIsPart(cfg, s);
    QueueKept(cfg, s, Apply(cfg, s, NextBatch));
  }

  lemma {:induction false} BatchIsPart(cfg: PlanConf, s: Plan)
    requires s.pend.turns == [] && ScheduleOk(s.pend)
    ensures ScheduleOk(Batched(cfg, s))
  {
    assert s.pend.turns + s.pend.walk == s.pend.walk;
    BatchedOnce(s.pend.walk, Leaving(cfg, s), Priorities(cfg), Trying(cfg, s, false), Trying(cfg, s, true));
  }

  lemma CommitKeepsQueue(cfg: PlanConf, s: Plan, i: nat, t: Plan)
    requires Inv(cfg, s) && QueueInv(cfg, s) && CommitEffect(cfg, s, i, t)
    requires s.phase == Committing && s.nodes[i].queue == StateChange && t.pend == s.pend.(toTell := t.pend.toTell)
    ensures QueueInv(cfg, t)
  {
    forall j | 0 <= j < |cfg| ensures t.nodes[j].queue == PendingQueue <==> s.nodes[j].queue == PendingQueue {
      if j != i { SameQueue(cfg, s, t, j); }
    }
    QueueKept(cfg, s, t);
  }

  lemma SameQueue(cfg: PlanConf, s: Plan, t: Plan, j: nat)
    requires Inv(cfg, s) && Sized(cfg, t) && j < |cfg| && Touched(s.nodes[j], t.nodes[j])
    ensures t.nodes[j].queue == PendingQueue <==> s.nodes[j].queue == PendingQueue
  {
    assert NodeOk(cfg, s, j);
    TouchedQueue(cfg[j].parent.None?, s.nodes[j], t.nodes[j]);
  }

  lemma StepKeepsQueue(cfg: PlanConf, s: Plan, step: Step)
    requires Inv(cfg, s) && QueueInv(cfg, s) && Enabled(cfg, s, step)
    ensures Sized(cfg, Apply(cfg, s, step)) && QueueInv(cfg, Apply(cfg, s, step))
  {
    match step {
      case Check(i) => CheckKeepsQueue(cfg, s, i);
      case Resolve(i) => TurnKeepsQueue(cfg, s, i);
      case NextBatch => BatchKeepsQueue(cfg, s);
      case Commit(i, rhs) =>
        CommitShape(cfg, s, i, rhs);
        CommitKeepsQueue(cfg, s, i, CommitNode(cfg, s, i, rhs));
      case _ => TouchKeepsQueue(cfg, s, step);
    }
  }

  lemma TouchKeepsQueue(cfg: PlanConf, s: Plan, step: Step)
    requires Inv(cfg, s) && QueueInv(cfg, s) && Enabled(cfg, s, step) && OnlyTouches(step) && !step.NextBatch?
    ensures Sized(cfg, Apply(cfg, s, step)) && QueueInv(cfg, Apply(cfg, s, step))
  {
    var t := Apply(cfg, s, step);
    TouchShape(cfg, s, step);
    forall j | 0 <= j < |cfg| ensures t.nodes[j].queue == PendingQueue <==> s.nodes[j].queue == PendingQueue {
      assert Touched(s.nodes[j], t.nodes[j]);
      SameQueue(cfg, s, t, j);
    }
    assert [] + s.pend.queue == s.pend.queue;
    QueueKept(cfg, s, t);
  }

  // ----- why a node that is refused goes on waiting -----

  /** A pending node whose last attempt failed and that has not been told to try again. */
  predicate Refusal(n: NodeRec) {
    n.queue == PendingQueue && (n.status == QueuePending || n.status == QueuePendingCheck)
  }

  ghost predicate RefusalOk(cfg: PlanConf, s: Plan, j: nat)
    requires Sized(cfg, s) && j < |cfg|
  {
    Refusal(s.nodes[j]) ==>
      && j in s.pend.waiters
      && (j in s.pend.toTell || j in s.pend.selfRefused || HeldByOther(cfg[j], j, s.holders, s.varHolders))
  }

  ghost predicate WaitInv(cfg: PlanConf, s: Plan)
    requires Sized(cfg, s)
  {
    && (forall i | i in s.pend.waiters :: i in s.pend.queue) && s.pend.toTell <= s.pend.waiters
    && (s.phase != Resolving && s.phase != Committing ==> s.pend.toTell == {})
    && forall j: nat | j < |cfg| :: RefusalOk(cfg, s, j)
  }

  /** A resource stays with who has it, unless it is given back; then who waits for it is told. */
  lemma HeldOrTold(cfg: PlanConf, s: Plan, t: Plan, j: nat, given: nat -> bool, variable: Option<nat>)
    requires j < |cfg| && j in s.pend.waiters && HeldByOther(cfg[j], j, s.holders, s.varHolders)
    requires forall m: nat :: s.holders(m).Some? && t.holders(m) != s.holders(m) ==> given(m)
    requires forall v | v in s.varHolders && variable != Some(v) ::
      v in t.varHolders && t.varHolders[v] == s.varHolders[v]
    requires Uses(cfg[j], given, variable) ==> j in t.pend.toTell
    ensures j in t.pend.toTell || HeldByOther(cfg[j], j, t.holders, t.varHolders)
  {
  }

  /** What committing node i gives back, and whom that concerns. */
  ghost predicate AnnounceEffect(cfg: PlanConf, s: Plan, i: nat, to: NodeState, t: Plan)
    requires Sized(cfg, s) && i < |cfg|
  {
    var from, conf := s.nodes[i].state, cfg[i];
    && t.pend == Announced(cfg, s, i, from, to)
    && t.holders == (if ReleasesMutexes(from, to) then Released(s.holders, conf.mutexes, i) else s.holders)
    && t.varHolders == CommittedVarHolders(conf, i, from, to, s.varHolders)
  }

  lemma {:induction false} CommitAnnounces(cfg: PlanConf, s: Plan, i: nat, rhs: Val)
    requires Sized(cfg, s) && i < |cfg| && s.nodes[i].next.Some?
    ensures AnnounceEffect(cfg, s, i, s.nodes[i].next.value, CommitNode(cfg, s, i, rhs))
  {
  }

  lemma CommitKeepsWait(cfg: PlanConf, s: Plan, i: nat, to: NodeState, t: Plan)
    requires Inv(cfg, s) && WaitInv(cfg, s) && CommitEffect(cfg, s, i, t) && AnnounceEffect(cfg, s, i, to, t)
    requires s.pend.toTell == {} && s.phase == Committing && s.nodes[i].queue == StateChange
    ensures WaitInv(cfg, t)
  {
    forall j: nat | j < |cfg| ensures RefusalOk(cfg, t, j) {
      if j != i && Refusal(t.nodes[j]) {
        assert Touched(s.nodes[j], t.nodes[j]);
        TouchedRefusal(cfg, s, t, j);
        assert RefusalOk(cfg, s, j);
        if j !in s.pend.selfRefused { ToldByMove(cfg, s, i, to, t, j); }
      }
    }
  }

  lemma ToldByMove(cfg: PlanConf, s: Plan, i: nat, to: NodeState, t: Plan, j: nat)
    requires Sized(cfg, s) && i < |cfg| && AnnounceEffect(cfg, s, i, to, t)
    requires j < |cfg| && j in s.pend.waiters && HeldByOther(cfg[j], j, s.holders, s.varHolders)
    ensures j in t.pend.toTell || HeldByOther(cfg[j], j, t.holders, t.varHolders)
  {
    var from, conf := s.nodes[i].state, cfg[i];
    var variable := if ReturnsVariable(conf, i, from, to, s.varHolders) then Some(conf.variable) else None;
    HeldOrTold(cfg, s, t, j, Returned(conf, i, from, to, s.holders), variable);
  }

  lemma TouchedRefusal(cfg: PlanConf, s: Plan, t: Plan, j: nat)
    requires Inv(cfg, s) && Sized(cfg, t) && j < |cfg| && Touched(s.nodes[j], t.nodes[j]) && Refusal(t.nodes[j])
    ensures Refusal(s.nodes[j])
  {
    assert NodeOk(cfg, s, j);
    TouchedQueue(cfg[j].parent.None?, s.nodes[j], t.nodes[j]);
  }

  lemma TouchKeepsWait(cfg: PlanConf, s: Plan, step: Step)
    requires Inv(cfg, s) && WaitInv(cfg, s) && Enabled(cfg, s, step) && OnlyTouches(step)
    ensures Sized(cfg, Apply(cfg, s, step)) && WaitInv(cfg, Apply(cfg, s, step))
  {
    var t := Apply(cfg, s, step);
    TouchShape(cfg, s, step);
    forall j: nat | j < |cfg| ensures RefusalOk(cfg, t, j) {
      assert RefusalOk(cfg, s, j) && Touched(s.nodes[j], t.nodes[j]);
      if Refusal(t.nodes[j]) { TouchedRefusal(cfg, s, t, j); }
    }
  }

  lemma CheckKeepsWait(cfg: PlanConf, s: Plan, i: nat)
    requires Inv(cfg, s) && QueueInv(cfg, s) && WaitInv(cfg, s) && Enabled(cfg, s, Check(i))
    ensures Sized(cfg, CheckNode(cfg, s, i)) && WaitInv(cfg, CheckNode(cfg, s, i))
  {
    var t := CheckNode(cfg, s, i);
    CheckShape(cfg, s, i);
    if t.nodes[i].queue == PendingQueue { InsertedOnce(s.pend.queue, i, Priorities(cfg)); }
    forall j: nat | j < |cfg| ensures RefusalOk(cfg, t, j) {
      assert RefusalOk(cfg, s, j);
    }
  }

  lemma TurnKeepsWait(cfg: PlanConf, s: Plan, i: nat)
    requires Inv(cfg, s) && QueueInv(cfg, s) && WaitInv(cfg, s) && Enabled(cfg, s, Resolve(i))
    ensures Sized(cfg, ResolveNode(cfg, s, i)) && WaitInv(cfg, ResolveNode(cfg, s, i))
  {
    var t := ResolveNode(cfg, s, i);
    ResolveShape(cfg, s, i);
    assert NodeOk(cfg, s, i);
    WithoutKeeps(s.pend.queue, i, Priorities(cfg));
    forall j: nat | j < |cfg| ensures RefusalOk(cfg, t, j) {
      assert RefusalOk(cfg, s, j);
      if j == i {
        OwnRefusal(cfg, s, i);
      } else if Refusal(s.nodes[j]) && j !in s.pend.selfRefused {
        OthersRefusal(cfg, s, i, j);
      }
    }
  }

  lemma OwnRefusal(cfg: PlanConf, s: Plan, i: nat)
    requires Inv(cfg, s) && WaitInv(cfg, s) && Enabled(cfg, s, Resolve(i))
    ensures Sized(cfg, ResolveNode(cfg, s, i)) && RefusalOk(cfg, ResolveNode(cfg, s, i), i)
  {
    ResolveShape(cfg, s, i);
    assert NodeOk(cfg, s, i) && RefusalOk(cfg, s, i);
  }

  lemma OthersRefusal(cfg: PlanConf, s: Plan, i: nat, j: nat)
    requires Inv(cfg, s) && WaitInv(cfg, s) && Enabled(cfg, s, Resolve(i)) && j < |cfg| && j != i
    requires Refusal(s.nodes[j]) && j !in s.pend.selfRefused
    ensures Sized(cfg, ResolveNode(cfg, s, i)) && RefusalOk(cfg, ResolveNode(cfg, s, i), j)
  {
    ResolveShape(cfg, s, i);
    TurnEffects(cfg, s, i);
    assert NodeOk(cfg, s, i) && RefusalOk(cfg, s, j);
    ToldByTurn(cfg, s, i, ResolveNode(cfg, s, i), j);
  }

  /** What a turn does to the resources, and whom that concerns. */
  ghost predicate TurnEffect(cfg: PlanConf, s: Plan, i: nat, attempts: bool, t: Plan)
    requires Sized(cfg, s) && i < |cfg|
  {
    var conf := cfg[i];
    if !attempts then t.holders == s.holders && t.varHolders == s.varHolders
    else if CanAcquire(conf, s) then
      && t.holders == Taken(s.holders, conf.mutexes, i)
      && t.varHolders == if conf.kind == Assignment then s.varHolders[conf.variable := i] else s.varHolders
    else
      && t.holders == Released(s.holders, conf.mutexes, i) && t.varHolders == s.varHolders
      && t.pend.toTell == WaitersOn(cfg, s.pend.waiters - {i}, GivenBack(conf, i, s.holders), None)
  }

  lemma {:induction false} TurnEffects(cfg: PlanConf, s: Plan, i: nat)
    requires Inv(cfg, s) && Enabled(cfg, s, Resolve(i))
    ensures TurnEffect(cfg, s, i, Attempts(s.nodes[i], Decide(cfg, s, i)), ResolveNode(cfg, s, i))
  {
    assert NodeOk(cfg, s, i);
  }

  lemma ToldByTurn(cfg: PlanConf, s: Plan, i: nat, t: Plan, j: nat)
    requires Sized(cfg, s) && i < |cfg| && TurnEffect(cfg, s, i, Attempts(s.nodes[i], Decide(cfg, s, i)), t)
    requires j < |cfg| && j != i && j in s.pend.waiters && HeldByOther(cfg[j], j, s.holders, s.varHolders)
    ensures j in t.pend.toTell || HeldByOther(cfg[j], j, t.holders, t.varHolders)
  {
    if Attempts(s.nodes[i], Decide(cfg, s, i)) && !CanAcquire(cfg[i], s) {
      HeldOrTold(cfg, s, t, j, GivenBack(cfg[i], i, s.holders), None);
    } else {
      HeldOrTold(cfg, s, t, j, m => false, None);
    }
  }

  lemma StepKeepsWait(cfg: PlanConf, s: Plan, step: Step)
    requires Inv(cfg, s) && QueueInv(cfg, s) && WaitInv(cfg, s) && Enabled(cfg, s, step)
    ensures Sized(cfg, Apply(cfg, s, step)) && WaitInv(cfg, Apply(cfg, s, step))
  {
    match step {
      case Check(i) => CheckKeepsWait(cfg, s, i);
      case Resolve(i) => TurnKeepsWait(cfg, s, i);
      case Commit(i, rhs) =>
        CommitShape(cfg, s, i, rhs);
        CommitAnnounces(cfg, s, i, rhs);
        CommitKeepsWait(cfg, s, i, s.nodes[i].next.value, CommitNode(cfg, s, i, rhs));
      case _ => TouchKeepsWait(cfg, s, step);
    }
  }

  // ----- who is told -----

  /** From s to t a resource that node j needs has been given back. */
  predicate Freed(cfg: PlanConf, s: Plan, t: Plan, j: nat)
    requires j < |cfg|
  {
    || (exists m | m in cfg[j].mutexes :: s.holders(m).Some? && t.holders(m) == None)
    || (cfg[j].kind == Assignment && cfg[j].variable in s.varHolders && cfg[j].variable !in t.varHolders)
  }

  lemma {:induction false} FreedMeansToTell(cfg: PlanConf, s: Plan, step: Step, j: nat)
    requires Inv(cfg, s) && WaitInv(cfg, s) && Enabled(cfg, s, step) && (step.Commit? || step.Resolve?)
    requires j < |cfg| && j != step.node && Refusal(s.nodes[j]) && Freed(cfg, s, Apply(cfg, s, step), j)
    ensures j in Apply(cfg, s, step).pend.toTell
  {
    assert RefusalOk(cfg, s, j);
    if step.Commit? {
      CommitAnnounces(cfg, s, step.node, step.rhs);
      FreedByMove(cfg, s, step.node, s.nodes[step.node].next.value, Apply(cfg, s, step), j);
    } else {
      TurnEffects(cfg, s, step.node);
      FreedByTurn(cfg, s, step.node, Attempts(s.nodes[step.node], Decide(cfg, s, step.node)), Apply(cfg, s, step), j);
    }
  }

  lemma FreedByMove(cfg: PlanConf, s: Plan, i: nat, to: NodeState, t: Plan, j: nat)
    requires Sized(cfg, s) && i < |cfg| && AnnounceEffect(cfg, s, i, to, t)
    requires j < |cfg| && j in s.pend.waiters && Freed(cfg, s, t, j)
    ensures j in t.pend.toTell
  {
  }

  lemma FreedByTurn(cfg: PlanConf, s: Plan, i: nat, attempts: bool, t: Plan, j: nat)
    requires Sized(cfg, s) && i < |cfg| && TurnEffect(cfg, s, i, attempts, t)
    requires j < |cfg| && j != i && j in s.pend.waiters && Freed(cfg, s, t, j)
    ensures j in t.pend.toTell
  {
  }

  predicate TriesAgain(n: NodeRec) {
    n.queue == PendingQueue && (n.status == QueuePendingTry || n.status == QueuePendingTryCheck)
  }

  predicate AllTelling(steps: seq<Step>) {
    forall x | x in steps :: x.ResourceFreed?
  }

  /** Once everybody has been told, who was to be told is to try again. */
  lemma {:induction false} ToldTryAgain(cfg: PlanConf, s: Plan, steps: seq<Step>, t: Plan, j: nat)
    requires Inv(cfg, s) && QueueInv(cfg, s) && WaitInv(cfg, s) && IsRun(cfg, s, steps, t) && AllTelling(steps)
    requires t.pend.toTell == {} && j < |cfg| && (j in s.pend.toTell || TriesAgain(s.nodes[j]))
    ensures j < |t.nodes| && TriesAgain(t.nodes[j])
    decreases |steps|
  {
    if steps != [] {
      assert steps[0] in steps;
      OneIsTold(cfg, s, steps[0].node, j);
      ToldTryAgain(cfg, Apply(cfg, s, steps[0]), steps[1..], t, j);
    }
  }

  lemma OneIsTold(cfg: PlanConf, s: Plan, i: nat, j: nat)
    requires Inv(cfg, s) && QueueInv(cfg, s) && WaitInv(cfg, s) && Enabled(cfg, s, ResourceFreed(i))
    requires j < |cfg| && (j in s.pend.toTell || TriesAgain(s.nodes[j]))
    ensures var t := Apply(cfg, s, ResourceFreed(i));
      && Inv(cfg, t) && QueueInv(cfg, t) && WaitInv(cfg, t)
      && (j in t.pend.toTell || TriesAgain(t.nodes[j]))
  {
    assert NodeOk(cfg, s, j);
    StepKeepsInv(cfg, s, ResourceFreed(i));
    StepKeepsQueue(cfg, s, ResourceFreed(i));
    StepKeepsWait(cfg, s, ResourceFreed(i));
  }

  // ----- who gets a turn -----

  /** What a pass over the pending queue consists of. */
  predicate IsTurn(step: Step) {
    step.NextBatch? || step.Resolve? || step.ResourceFreed?
  }

  predicate AllTurns(steps: seq<Step>) {
    forall x | x in steps :: IsTurn(x)
  }

  /** The nodes that are to have a turn: those of this batch, and those the walk will reach. */
  function ToHaveTurns(cfg: PlanConf, s: Plan): seq<nat> {
    s.pend.turns + Reached(s.pend.walk, Leaving(cfg, s))
  }

  /** Looking at node i would find the same: it leaves the queue in both plans or in neither. */
  lemma SameLeaves(cfg: PlanConf, s: Plan, t: Plan, i: nat)
    requires Sized(cfg, s) && Sized(cfg, t) && t.values == s.values && t.handles == s.handles
    requires forall j | 0 <= j < |cfg| :: SameBasis(s.nodes[j], t.nodes[j])
    requires i < |cfg| ==> t.nodes[i].status == s.nodes[i].status || t.nodes[i] == ResourceAvailable(s.nodes[i])
    ensures Leaves(cfg, t, i) == Leaves(cfg, s, i)
  {
    if i < |cfg| { SameDecision(cfg, s, t, i); }
  }

  lemma {:induction false} AnnouncementKeepsTurns(cfg: PlanConf, s: Plan, j: nat)
    requires Inv(cfg, s) && Enabled(cfg, s, ResourceFreed(j))
    ensures ToHaveTurns(cfg, Apply(cfg, s, ResourceFreed(j))) == ToHaveTurns(cfg, s)
  {
    var t := Apply(cfg, s, ResourceFreed(j));
    forall i | i in s.pend.walk ensures Leaving(cfg, s)(i) == Leaving(cfg, t)(i) {
      SameLeaves(cfg, s, t, i);
    }
    SameReached(s.pend.walk, Leaving(cfg, s), Leaving(cfg, t));
  }

  /** A turn changes nothing in what looking at another node will find. */
  lemma {:induction false} TurnChangesNoOther(cfg: PlanConf, s: Plan, j: nat, i: nat)
    requires Inv(cfg, s) && Enabled(cfg, s, Resolve(j)) && i != j
    ensures Leaving(cfg, s)(i) == Leaving(cfg, ResolveNode(cfg, s, j))(i)
  {
    ResolveShape(cfg, s, j);
    ResolvedBasis(s.nodes[j], Decide(cfg, s, j), CanAcquire(cfg[j], s));
    SameLeaves(cfg, s, ResolveNode(cfg, s, j), i);
  }

  lemma {:induction false} TurnKeepsTurns(cfg: PlanConf, s: Plan, j: nat)
    requires Inv(cfg, s) && QueueInv(cfg, s) && Enabled(cfg, s, Resolve(j))
    ensures ToHaveTurns(cfg, s) == [j] + ToHaveTurns(cfg, ResolveNode(cfg, s, j))
  {
    var t := ResolveNode(cfg, s, j);
    OnlyOneTurn(s.pend, j);
    TurnGoes(cfg, s, j);
    forall i | i in s.pend.walk ensures Leaving(cfg, s)(i) == Leaving(cfg, t)(i) {
      TurnChangesNoOther(cfg, s, j, i);
    }
    SameReached(s.pend.walk, Leaving(cfg, s), Leaving(cfg, t));
    FirstApart(s.pend.turns, Reached(s.pend.walk, Leaving(cfg, s)));
  }

  lemma FirstApart(a: seq<nat>, b: seq<nat>)
    requires a != []
    ensures a + b == [a[0]] + (a[1..] + b)
  {
  }

  lemma TurnGoes(cfg: PlanConf, s: Plan, j: nat)
    requires Sized(cfg, s) && j < |cfg| && s.pend.turns != []
    ensures ResolveNode(cfg, s, j).pend.turns == s.pend.turns[1..] && ResolveNode(cfg, s, j).pend.walk == s.pend.walk
  {
  }

  lemma OnlyOneTurn(p: Pending, j: nat)
    requires ScheduleOk(p) && p.turns != [] && p.turns[0] == j
    ensures j !in p.walk
  {
    assert (p.turns + p.walk)[0] == j;
    assert forall k | 0 <= k < |p.walk| :: (p.turns + p.walk)[|p.turns| + k] == p.walk[k];
  }

  lemma ResolvedBasis(n: NodeRec, d: Decision, free: bool)
    ensures SameBasis(n, Resolved(n, d, free))
  {
  }

  lemma {:induction false} BatchKeepsTurns(cfg: PlanConf, s: Plan, i: nat)
    requires Inv(cfg, s) && QueueInv(cfg, s) && Enabled(cfg, s, NextBatch)
    ensures i in ToHaveTurns(cfg, Apply(cfg, s, NextBatch)) <==> i in ToHaveTurns(cfg, s)
  {
    var t, walk := Apply(cfg, s, NextBatch), s.pend.walk;
    assert s.pend.turns + walk == walk;
    forall k | k in t.pend.walk ensures Leaving(cfg, s)(k) == Leaving(cfg, t)(k) {
      SameLeaves(cfg, s, t, k);
    }
    SameReached(t.pend.walk, Leaving(cfg, s), Leaving(cfg, t));
    BatchedOnce(walk, Leaving(cfg, s), Priorities(cfg), Trying(cfg, s, false), Trying(cfg, s, true));
    LookedThenLeft(walk, Leaving(cfg, s), Priorities(cfg));
  }

  /** A node that is to have a turn has it now, or is still to have it. */
  lemma {:induction false} TurnNowOrLater(cfg: PlanConf, s: Plan, step: Step, i: nat)
    requires Inv(cfg, s) && QueueInv(cfg, s) && Enabled(cfg, s, step) && AllTurns([step])
    ensures Sized(cfg, Apply(cfg, s, step))
    ensures i in ToHaveTurns(cfg, s) <==> step == Resolve(i) || i in ToHaveTurns(cfg, Apply(cfg, s, step))
  {
    assert step in [step];
    if step.ResourceFreed? {
      AnnouncementKeepsTurns(cfg, s, step.node);
    } else if step.Resolve? {
      ResolveShape(cfg, s, step.node);
      TurnKeepsTurns(cfg, s, step.node);
    } else {
      BatchKeepsTurns(cfg, s, i);
    }
  }

  lemma {:induction false} AfterFirst(cfg: PlanConf, s: Plan, steps: seq<Step>, t: Plan, i: nat) returns (u: Plan)
    requires Inv(cfg, s) && QueueInv(cfg, s) && IsRun(cfg, s, steps, t) && AllTurns(steps) && steps != []
    ensures Inv(cfg, u) && QueueInv(cfg, u) && IsRun(cfg, u, steps[1..], t) && AllTurns(steps[1..])
    ensures i in ToHaveTurns(cfg, s) <==> steps[0] == Resolve(i) || i in ToHaveTurns(cfg, u)
    ensures Resolve(i) in steps <==> steps[0] == Resolve(i) || Resolve(i) in steps[1..]
  {
    u := Apply(cfg, s, steps[0]);
    StepKeepsInv(cfg, s, steps[0]);
    StepKeepsQueue(cfg, s, steps[0]);
    TurnNowOrLater(cfg, s, steps[0], i);
    assert steps == [steps[0]] + steps[1..];
  }

  /** A pass over the pending queue gives turns to exactly the nodes that it is to give turns. */
  lemma {:induction false} TurnsGiven(cfg: PlanConf, s: Plan, steps: seq<Step>, t: Plan, i: nat)
    requires Inv(cfg, s) && QueueInv(cfg, s) && IsRun(cfg, s, steps, t) && AllTurns(steps)
    requires t.pend.turns == t.pend.walk == []
    ensures Resolve(i) in steps <==> i in ToHaveTurns(cfg, s)
    decreases |steps|
  {
    if steps != [] {
      var u := AfterFirst(cfg, s, steps, t, i);
      TurnsGiven(cfg, u, steps[1..], t, i);
    }
  }

  /** The k-th node of the pending queue gets a turn exactly if none before it leaves the queue
      when it is looked at. */
  lemma {:induction false} TurnsAreGivenUpTo(cfg: PlanConf, s: Plan, steps: seq<Step>, t: Plan, k: nat)
    requires Inv(cfg, s) && QueueInv(cfg, s) && Enabled(cfg, s, EndCheck) && k < |s.pend.queue|
    requires IsRun(cfg, Apply(cfg, s, EndCheck), steps, t) && AllTurns(steps) && t.pend.turns == t.pend.walk == []
    ensures Resolve(s.pend.queue[k]) in steps <==> forall j | 0 <= j < k :: !Leaves(cfg, s, s.pend.queue[j])
  {
    var u := Apply(cfg, s, EndCheck);
    StepKeepsInv(cfg, s, EndCheck);
    StepKeepsQueue(cfg, s, EndCheck);
    TurnsGiven(cfg, u, steps, t, s.pend.queue[k]);
    ReachedExactly(s.pend.queue, Leaving(cfg, u), k);
    assert ToHaveTurns(cfg, u) == Reached(s.pend.queue, Leaving(cfg, u));
    forall j | 0 <= j < k ensures Leaving(cfg, u)(s.pend.queue[j]) == Leaves(cfg, s, s.pend.queue[j]) {
      SameLeaves(cfg, s, u, s.pend.queue[j]);
    }
  }

  // ----- who is refused although nobody else is in the way -----

  /** An attempt that nobody else stands in the way of fails exactly on a mutex that the node
      itself has left behind. */
  lemma RefusedAlone(cfg: PlanConf, s: Plan, i: nat)
    requires Inv(cfg, s) && ResInv(cfg, s) && Enabled(cfg, s, Resolve(i))
    requires !HeldByOther(cfg[i], i, s.holders, s.varHolders)
    ensures CanAcquire(cfg[i], s) <==> !s.hist[i].leaked
  {
    assert NodeOk(cfg, s, i) && LeakOk(cfg, s, i) && VariableOk(cfg, s, i, cfg[i].variable);
    forall m | m in cfg[i].mutexes ensures s.holders(m) == if s.hist[i].leaked then Some(i) else None {
      assert MutexOk(cfg, s, i, m);
    }
    if s.hist[i].leaked { assert cfg[i].mutexes[0] in cfg[i].mutexes; }
  }

  lemma {:induction false} SelfRefusedExactly(cfg: PlanConf, s: Plan, i: nat)
    requires Inv(cfg, s) && ResInv(cfg, s) && Enabled(cfg, s, Resolve(i)) && MayTry(cfg, s, i)
    ensures i in ResolveNode(cfg, s, i).pend.selfRefused
      <==> s.hist[i].leaked && !HeldByOther(cfg[i], i, s.holders, s.varHolders)
  {
    ResolveShape(cfg, s, i);
    assert NodeOk(cfg, s, i) && LeakOk(cfg, s, i);
    SuccessStarts(s.nodes[i], Decide(cfg, s, i), CanAcquire(cfg[i], s));
    if HeldByOther(cfg[i], i, s.holders, s.varHolders) {
      assert !CanAcquire(cfg[i], s);
    } else {
      RefusedAlone(cfg, s, i);
    }
  }
}
