/** The executive's macro step: the quiescence loop and the side effects after it.  It is a
    run of the step system, and ends. */
module ExecLoop {
  import opened NodeConstants
  import opened Options
  import opened Conditions
  import opened NodeLogic
  import opened PlanMachine
  import opened PlanInvariant
  import opened Termination
  import opened Rollback
  import opened WalkedQueue
  import opened Contention
  import opened PlanTheorems

  /** What one pass of the loop meets: the conditions' values, right-hand sides, and the nodes
      whose conditions change while its moves are committed. */
  datatype Inputs = Inputs(
    values: map<(nat, CondIdx), Tri>,
    handles: map<nat, CommandHandle>,
    rhs: nat -> Val,
    changed: seq<nat>)

  /** The steps lead from s to t. */
  ghost predicate Came(cfg: PlanConf, s: Plan, steps: seq<Step>, t: Plan) {
    WellFormed(cfg) && Reachable(cfg, t) && Sized(cfg, t) && IsRun(cfg, s, steps, t)
  }

  /** And in t nobody is still to be told of a resource. */
  ghost predicate Ran(cfg: PlanConf, s: Plan, steps: seq<Step>, t: Plan) {
    Came(cfg, s, steps, t) && t.pend.toTell == {}
  }

  lemma {:induction false} RunThenRun(cfg: PlanConf, s: Plan, first: seq<Step>, t: Plan, second: seq<Step>, u: Plan)
    requires IsRun(cfg, s, first, t) && IsRun(cfg, t, second, u)
    ensures IsRun(cfg, s, first + second, u)
    decreases |first|
  {
    if first == [] {
      assert first + second == second;
    } else {
      RunThenRun(cfg, Apply(cfg, s, first[0]), first[1..], t, second, u);
      assert (first + second)[1..] == first[1..] + second;
    }
  }

  // ----- what one pass does -----

  /** One pass: the steps up to the plan in which it is decided who moves, and those after. */
  datatype PassRun = PassRun(start: Plan, deciding: seq<Step>, decided: Plan, moving: seq<Step>, end: Plan)

  predicate AllDeciding(steps: seq<Step>) {
    forall x | x in steps :: x.Check? || x.EndCheck? || x.EndResolve? || IsTurn(x)
  }

  ghost predicate AllMoving(steps: seq<Step>, input: Inputs) {
    forall x | x in steps ::
      || (x.Commit? && x.rhs == input.rhs(x.node)) || x.ResourceFreed?
      || (x.Notify? && x.node in input.changed)
  }

  /** Whose conditions have changed has been notified, but for those that notify rejects. */
  predicate Heard(steps: seq<Step>, changed: seq<nat>, t: Plan) {
    forall n | n in changed && n < |t.nodes| :: Notify(n) in steps || !NotifyOk(t.nodes[n].status)
  }

  /** Candidates are checked until there are none, the pending queue is walked to the end of the
      walk, the decided moves are committed until there are none, and the changed nodes are
      notified; the last two only if a move was decided at all.  Whoever waits for a resource
      that is given back is told at once. */
  ghost predicate MadePass(cfg: PlanConf, p: PassRun, input: Inputs) {
    && IsRun(cfg, p.start, p.deciding, p.decided) && AllDeciding(p.deciding)
    && p.decided.phase == Committing && p.decided.pend.toTell == {}
    && IsRun(cfg, p.decided, p.moving, p.end) && AllMoving(p.moving, input)
    && p.end.phase == Committing && NoneIn(p.end, StateChange) && p.end.pend.toTell == {}
    && if NoneIn(p.decided, StateChange) then p.moving == [] else Heard(p.moving, input.changed, p.end)
  }

  /** The move that the node has decided on queues a command or the abort of one. */
  predicate QueuesCommand(cfg: PlanConf, s: Plan, i: nat)
    requires i < |cfg| == |s.nodes|
  {
    cfg[i].kind == Command && s.nodes[i].queue == StateChange
    && (s.nodes[i].next == Some(Executing) || s.nodes[i].next == Some(Failing))
  }

  predicate QueuesNoCommand(cfg: PlanConf, s: Plan)
    requires |cfg| == |s.nodes|
  {
    forall i | 0 <= i < |cfg| :: !QueuesCommand(cfg, s, i)
  }

  /** The loop goes on: something moved, no side effect is waiting, and some node asks to be
      checked again. */
  predicate GoesOn(cfg: PlanConf, decided: Plan, end: Plan)
    requires |cfg| == |decided.nodes|
  {
    && !NoneIn(decided, StateChange) && QueuesNoCommand(cfg, decided)
    && end.toExecute == end.toRetract == {} && !NoneIn(end, Candidates)
  }

  /** Why the loop ends after a pass: no move was decided, something is left to execute, retract,
      send or abort, or nobody asks to be checked.  Otherwise it makes another pass. */
  lemma {:induction false} WhenItRests(cfg: PlanConf, decided: Plan, end: Plan)
    requires |cfg| == |decided.nodes|
    ensures !GoesOn(cfg, decided, end) <==>
      || (forall i | 0 <= i < |cfg| :: decided.nodes[i].queue != StateChange)
      || end.toExecute != {} || end.toRetract != {}
      || (exists i | 0 <= i < |cfg| :: decided.nodes[i].queue == StateChange && cfg[i].kind == Command
                                       && decided.nodes[i].next in {Some(Executing), Some(Failing)})
      || (forall i | 0 <= i < |end.nodes| :: end.nodes[i].queue != Candidates)
  {
    if i: nat :| i < |cfg| && QueuesCommand(cfg, decided, i) {
      assert decided.nodes[i].queue == StateChange && decided.nodes[i].next in {Some(Executing), Some(Failing)};
    } else {
      forall i | 0 <= i < |cfg| && decided.nodes[i].queue == StateChange && cfg[i].kind == Command
        ensures decided.nodes[i].next !in {Some(Executing), Some(Failing)}
      {
        assert !QueuesCommand(cfg, decided, i);
      }
    }
  }

  // ----- the loop -----

  method Take(cfg: PlanConf, ghost s: Plan, t: Plan, ghost steps: seq<Step>, step: Step)
      returns (u: Plan, ghost more: seq<Step>)
    requires Came(cfg, s, steps, t) && Enabled(cfg, t, step)
    ensures u == Apply(cfg, t, step) && Came(cfg, s, more, u) && more == steps + [step]
    ensures TotalMoves(u.hist) == TotalMoves(t.hist) + if step.Commit? then 1 else 0
  {
    u := Apply(cfg, t, step);
    more := steps + [step];
    StepIsTaken(cfg, s, t, steps, step);
  }

  lemma {:induction false} StepIsTaken(cfg: PlanConf, s: Plan, t: Plan, steps: seq<Step>, step: Step)
    requires Came(cfg, s, steps, t) && Enabled(cfg, t, step)
    ensures Came(cfg, s, steps + [step], Apply(cfg, t, step))
    ensures TotalMoves(Apply(cfg, t, step).hist) == TotalMoves(t.hist) + if step.Commit? then 1 else 0
  {
    var u := ReachStep(cfg, t, step);
    RunThenStep(cfg, s, steps, t, step);
    ReachableInv(cfg, t);
    assert IsRun(cfg, u, [], u) && [step][1..] == [];
    RunCountsMoves(cfg, t, [step], u);
  }

  function InQueue(s: Plan, q: Queue): set<nat> {
    set i: nat | i < |s.nodes| && s.nodes[i].queue == q
  }

  /** Every node has the queue and the cached decision that it had. */
  ghost predicate SameQueues(s: Plan, t: Plan) {
    && |s.nodes| == |t.nodes|
    && forall j | 0 <= j < |s.nodes| :: t.nodes[j].queue == s.nodes[j].queue && t.nodes[j].next == s.nodes[j].next
  }

  /** Whoever is to be told that a resource has been given back is told. */
  method TellAll(cfg: PlanConf, ghost s: Plan, t0: Plan, ghost steps0: seq<Step>)
      returns (t: Plan, ghost steps: seq<Step>)
    requires Came(cfg, s, steps0, t0)
    ensures Ran(cfg, s, steps, t) && (forall x | x in steps :: x in steps0 || x.ResourceFreed?)
    ensures t == t0.(nodes := t.nodes, pend := t0.pend.(toTell := {})) && SameQueues(t0, t)
  {
    t, steps := t0, steps0;
    while t.pend.toTell != {}
      invariant Came(cfg, s, steps, t) && forall x | x in steps :: x in steps0 || x.ResourceFreed?
      invariant t == t0.(nodes := t.nodes, pend := t0.pend.(toTell := t.pend.toTell)) && SameQueues(t0, t)
      decreases t.pend.toTell
    {
      var j :| j in t.pend.toTell;
      ToldKeepsQueues(cfg, t0, t, j);
      t, steps := Take(cfg, s, t, steps, ResourceFreed(j));
    }
  }

  lemma ToldKeepsQueues(cfg: PlanConf, t0: Plan, t: Plan, j: nat)
    requires WellFormed(cfg) && Reachable(cfg, t) && Sized(cfg, t) && j in t.pend.toTell && SameQueues(t0, t)
    ensures Enabled(cfg, t, ResourceFreed(j))
    ensures var u := Apply(cfg, t, ResourceFreed(j));
      SameQueues(t0, u) && u == t.(nodes := u.nodes, pend := t.pend.(toTell := t.pend.toTell - {j}))
  {
    ReachableAll(cfg, t);
  }

  /** Every candidate is evaluated. */
  method CheckAll(cfg: PlanConf, ghost s: Plan, t0: Plan, ghost steps0: seq<Step>)
      returns (t: Plan, ghost steps: seq<Step>)
    requires Ran(cfg, s, steps0, t0) && t0.phase == Checking && AllDeciding(steps0)
    ensures Ran(cfg, s, steps, t) && t.phase == Checking && NoneIn(t, Candidates) && AllDeciding(steps)
    ensures TotalMoves(t.hist) == TotalMoves(t0.hist)
  {
    t, steps := t0, steps0;
    while !NoneIn(t, Candidates)
      invariant Ran(cfg, s, steps, t) && t.phase == Checking && TotalMoves(t.hist) == TotalMoves(t0.hist)
      invariant AllDeciding(steps)
      decreases InQueue(t, Candidates)
    {
      var i: nat :| i < |t.nodes| && t.nodes[i].queue == Candidates;
      CheckLeavesQueue(cfg, t, i);
      t, steps := Take(cfg, s, t, steps, Check(i));
    }
  }

  lemma CheckLeavesQueue(cfg: PlanConf, t: Plan, i: nat)
    requires Sized(cfg, t) && Enabled(cfg, t, Check(i))
    ensures InQueue(CheckNode(cfg, t, i), Candidates) < InQueue(t, Candidates) && CheckNode(cfg, t, i).phase == t.phase
  {
    CheckShape(cfg, t, i);
    assert i in InQueue(t, Candidates) && i !in InQueue(CheckNode(cfg, t, i), Candidates);
  }

  /** The pending queue is walked, one priority after the other, until the walk is over. */
  method ResolveAll(cfg: PlanConf, ghost s: Plan, t0: Plan, ghost steps0: seq<Step>)
      returns (t: Plan, ghost steps: seq<Step>)
    requires Ran(cfg, s, steps0, t0) && t0.phase == Resolving && AllDeciding(steps0)
    ensures Ran(cfg, s, steps, t) && Enabled(cfg, t, EndResolve) && AllDeciding(steps)
    ensures TotalMoves(t.hist) == TotalMoves(t0.hist)
  {
    t, steps := t0, steps0;
    while t.pend.turns != [] || t.pend.walk != []
      invariant Ran(cfg, s, steps, t) && t.phase == Resolving && TotalMoves(t.hist) == TotalMoves(t0.hist)
      invariant AllDeciding(steps)
      decreases |t.pend.walk|, |t.pend.turns|
    {
      if t.pend.turns == [] {
        LookedThenLeft(t.pend.walk, Leaving(cfg, t), Priorities(cfg));
        t, steps := Take(cfg, s, t, steps, NextBatch);
      } else {
        var i := t.pend.turns[0];
        TurnIsDue(cfg, t, i);
        t, steps := Take(cfg, s, t, steps, Resolve(i));
        t, steps := TellAll(cfg, s, t, steps);
      }
    }
  }

  /** The node whose turn it is is pending still. */
  lemma {:induction false} TurnIsDue(cfg: PlanConf, t: Plan, i: nat)
    requires WellFormed(cfg) && Reachable(cfg, t) && Sized(cfg, t)
    requires t.phase == Resolving && t.pend.toTell == {} && t.pend.turns != [] && t.pend.turns[0] == i
    ensures Enabled(cfg, t, Resolve(i)) && ResolveNode(cfg, t, i).phase == t.phase
    ensures ResolveNode(cfg, t, i).pend.turns == t.pend.turns[1..] && ResolveNode(cfg, t, i).pend.walk == t.pend.walk
  {
    ReachableAll(cfg, t);
    assert (t.pend.turns + t.pend.walk)[0] == i && i in t.pend.turns + t.pend.walk;
    ResolveShape(cfg, t, i);
    TurnGoes(cfg, t, i);
  }

  /** Every decided move is committed; tells whether a command was queued by it. */
  method CommitAll(cfg: PlanConf, t0: Plan, input: Inputs)
      returns (t: Plan, commands: bool, ghost steps: seq<Step>)
    requires Ran(cfg, t0, [], t0) && t0.phase == Committing
    ensures Ran(cfg, t0, steps, t) && t.phase == Committing && NoneIn(t, StateChange) && AllMoving(steps, input)
    ensures commands <==> !QueuesNoCommand(cfg, t0)
    ensures TotalMoves(t.hist) >= TotalMoves(t0.hist) + if NoneIn(t0, StateChange) then 0 else 1
  {
    t, steps, commands := t0, [], false;
    while !NoneIn(t, StateChange)
      invariant Ran(cfg, t0, steps, t) && t.phase == Committing && AllMoving(steps, input)
      invariant Halfway(cfg, t0, t, commands)
      invariant TotalMoves(t.hist) >= TotalMoves(t0.hist) + if t == t0 then 0 else 1
      decreases InQueue(t, StateChange)
    {
      var i: nat :| i < |t.nodes| && t.nodes[i].queue == StateChange;
      t, commands, steps := CommitOne(cfg, t0, t, commands, steps, i, input);
    }
  }

  /** One move is committed, and whoever waits for what it gives back is told. */
  method CommitOne(cfg: PlanConf, ghost t0: Plan, t: Plan, commands0: bool, ghost steps0: seq<Step>, i: nat,
                   input: Inputs)
      returns (u: Plan, commands: bool, ghost steps: seq<Step>)
    requires Ran(cfg, t0, steps0, t) && t.phase == Committing && AllMoving(steps0, input)
    requires |cfg| == |t0.nodes| && Halfway(cfg, t0, t, commands0) && i < |cfg| && t.nodes[i].queue == StateChange
    ensures Ran(cfg, t0, steps, u) && u.phase == Committing && AllMoving(steps, input)
    ensures Halfway(cfg, t0, u, commands) && InQueue(u, StateChange) < InQueue(t, StateChange)
    ensures TotalMoves(u.hist) == TotalMoves(t.hist) + 1
  {
    ghost var v;
    u, commands, steps := TakeMove(cfg, t0, t, commands0, steps0, i, input.rhs(i));
    v := u;
    u, steps := TellAll(cfg, t0, u, steps);
    StillHalfway(cfg, t0, v, u, commands);
  }

  method TakeMove(cfg: PlanConf, ghost t0: Plan, t: Plan, commands0: bool, ghost steps0: seq<Step>, i: nat, rhs: Val)
      returns (u: Plan, commands: bool, ghost steps: seq<Step>)
    requires Ran(cfg, t0, steps0, t) && t.phase == Committing
    requires |cfg| == |t0.nodes| && Halfway(cfg, t0, t, commands0) && i < |cfg| && t.nodes[i].queue == StateChange
    ensures Came(cfg, t0, steps, u) && u.phase == Committing && steps == steps0 + [Commit(i, rhs)]
    ensures Halfway(cfg, t0, u, commands) && InQueue(u, StateChange) < InQueue(t, StateChange)
    ensures TotalMoves(u.hist) == TotalMoves(t.hist) + 1
  {
    CommitLeavesQueue(cfg, t, i, rhs);
    commands := commands0 || QueuesCommand(cfg, t, i);
    u, steps := Take(cfg, t0, t, steps0, Commit(i, rhs));
    CommandIsNoted(cfg, t0, t, i, u, commands0);
  }

  lemma StillHalfway(cfg: PlanConf, s: Plan, t: Plan, u: Plan, commands: bool)
    requires |cfg| == |s.nodes| == |t.nodes| && Halfway(cfg, s, t, commands) && SameQueues(t, u)
    ensures Halfway(cfg, s, u, commands) && InQueue(u, StateChange) == InQueue(t, StateChange)
  {
    assert forall i | 0 <= i < |cfg| :: QueuesCommand(cfg, u, i) == QueuesCommand(cfg, t, i);
  }

  /** Some moves have been committed; it is noted whether they queued a command. */
  ghost predicate Halfway(cfg: PlanConf, s: Plan, t: Plan, commands: bool)
    requires |cfg| == |s.nodes| == |t.nodes|
  {
    && LeftOf(s, t)
    && (commands <==> exists i | 0 <= i < |cfg| :: QueuesCommand(cfg, s, i) && !QueuesCommand(cfg, t, i))
  }

  lemma CommandIsNoted(cfg: PlanConf, s: Plan, t: Plan, i: nat, u: Plan, commands: bool)
    requires |cfg| == |s.nodes| == |t.nodes| && i < |cfg| && t.nodes[i].queue == StateChange
    requires OnlyLeaves(i, t, u) && Halfway(cfg, s, t, commands)
    ensures Halfway(cfg, s, u, commands || QueuesCommand(cfg, t, i))
  {
    forall j | 0 <= j < |cfg| && j != i ensures QueuesCommand(cfg, u, j) == QueuesCommand(cfg, t, j) {
    }
    assert !QueuesCommand(cfg, u, i) && QueuesCommand(cfg, s, i) == QueuesCommand(cfg, t, i);
  }

  /** The moves still queued are among those that were, and are the same. */
  ghost predicate LeftOf(s: Plan, t: Plan) {
    && |s.nodes| == |t.nodes|
    && forall i | 0 <= i < |t.nodes| && t.nodes[i].queue == StateChange ::
         s.nodes[i].queue == StateChange && s.nodes[i].next == t.nodes[i].next
  }

  ghost predicate OnlyLeaves(i: nat, s: Plan, t: Plan) {
    && |s.nodes| == |t.nodes|
    && forall j | 0 <= j < |t.nodes| ::
         && (t.nodes[j].queue == StateChange <==> s.nodes[j].queue == StateChange && j != i)
         && (j != i ==> s.nodes[j].next == t.nodes[j].next)
  }

  lemma {:induction false} CommitLeavesQueue(cfg: PlanConf, t: Plan, i: nat, rhs: Val)
    requires WellFormed(cfg) && Reachable(cfg, t) && Sized(cfg, t) && i < |cfg| && t.nodes[i].queue == StateChange
    requires t.phase == Committing && t.pend.toTell == {}
    ensures Enabled(cfg, t, Commit(i, rhs)) && CommitNode(cfg, t, i, rhs).phase == t.phase
    ensures OnlyLeaves(i, t, CommitNode(cfg, t, i, rhs))
    ensures InQueue(CommitNode(cfg, t, i, rhs), StateChange) < InQueue(t, StateChange)
  {
    ReachableInv(cfg, t);
    assert NodeOk(cfg, t, i);
    CommitShape(cfg, t, i, rhs);
    OthersStayQueued(cfg, t, i, CommitNode(cfg, t, i, rhs));
    QueueShrinks(i, t, CommitNode(cfg, t, i, rhs));
  }

  lemma QueueShrinks(i: nat, t: Plan, u: Plan)
    requires OnlyLeaves(i, t, u) && i < |t.nodes| && t.nodes[i].queue == StateChange
    ensures InQueue(u, StateChange) < InQueue(t, StateChange)
  {
    assert i in InQueue(t, StateChange) && i !in InQueue(u, StateChange);
  }

  lemma OthersStayQueued(cfg: PlanConf, t: Plan, i: nat, u: Plan)
    requires Inv(cfg, t) && CommitEffect(cfg, t, i, u) && t.nodes[i].queue == StateChange
    ensures OnlyLeaves(i, t, u)
  {
    forall j | 0 <= j < |cfg| && j != i
      ensures (u.nodes[j].queue == StateChange <==> t.nodes[j].queue == StateChange)
      ensures u.nodes[j].next == t.nodes[j].next
    {
      assert NodeOk(cfg, t, j) && Touched(t.nodes[j], u.nodes[j]);
      TouchedQueue(cfg[j].parent.None?, t.nodes[j], u.nodes[j]);
    }
  }

  /** The notifications that changed conditions send; one that notify has no arm for is lost. */
  method NotifyAll(cfg: PlanConf, ghost s: Plan, t0: Plan, ghost steps0: seq<Step>, input: Inputs)
      returns (t: Plan, ghost steps: seq<Step>)
    requires Ran(cfg, s, steps0, t0) && t0.phase == Committing && NoneIn(t0, StateChange) && AllMoving(steps0, input)
    ensures Ran(cfg, s, steps, t) && t.phase == Committing && NoneIn(t, StateChange) && AllMoving(steps, input)
    ensures Heard(steps, input.changed, t) && TotalMoves(t.hist) == TotalMoves(t0.hist)
  {
    t, steps := t0, steps0;
    var changed := input.changed;
    for k := 0 to |changed|
      invariant Ran(cfg, s, steps, t) && t.phase == Committing && NoneIn(t, StateChange) && AllMoving(steps, input)
      invariant Heard(steps, changed[..k], t) && TotalMoves(t.hist) == TotalMoves(t0.hist)
    {
      var i := changed[k];
      if i < |cfg| && NotifyOk(t.nodes[i].status) {
        t, steps := NotifyNext(cfg, s, t, steps, changed, k);
      } else {
        assert changed[..k + 1] == changed[..k] + [i];
      }
    }
    assert changed[..|changed|] == changed;
  }

  method NotifyNext(cfg: PlanConf, ghost s: Plan, t: Plan, ghost steps0: seq<Step>, changed: seq<nat>, k: nat)
      returns (u: Plan, ghost steps: seq<Step>)
    requires Ran(cfg, s, steps0, t) && k < |changed| && Heard(steps0, changed[..k], t)
    requires Enabled(cfg, t, Notify(changed[k])) && t.phase == Committing && NoneIn(t, StateChange)
    ensures Ran(cfg, s, steps, u) && steps == steps0 + [Notify(changed[k])] && TotalMoves(u.hist) == TotalMoves(t.hist)
    ensures u.phase == Committing && NoneIn(u, StateChange) && Heard(steps, changed[..k + 1], u)
  {
    OneMoreHeard(cfg, t, steps0, changed, k);
    u, steps := Take(cfg, s, t, steps0, Notify(changed[k]));
  }

  lemma OneMoreHeard(cfg: PlanConf, t: Plan, steps: seq<Step>, changed: seq<nat>, k: nat)
    requires k < |changed| && Heard(steps, changed[..k], t) && Sized(cfg, t) && Enabled(cfg, t, Notify(changed[k]))
    ensures var u := Apply(cfg, t, Notify(changed[k]));
      u.phase == t.phase && Heard(steps + [Notify(changed[k])], changed[..k + 1], u)
      && (NoneIn(t, StateChange) ==> NoneIn(u, StateChange))
  {
    assert changed[..k + 1] == changed[..k] + [changed[k]];
  }

  predicate AllEffects(steps: seq<Step>) {
    forall x | x in steps :: x.EndLoop? || x.Execute? || x.Retract? || x.EndEffects?
  }

  lemma QueuedAssignmentExists(cfg: PlanConf, t: Plan, i: nat)
    requires WellFormed(cfg) && Reachable(cfg, t) && Sized(cfg, t) && (i in t.toExecute || i in t.toRetract)
    ensures i < |cfg|
  {
    ReachableAll(cfg, t);
  }

  /** performAssignments: the assignments first, then the retractions. */
  method PerformAll(cfg: PlanConf, ghost s: Plan, t0: Plan, ghost steps0: seq<Step>)
      returns (t: Plan, ghost steps: seq<Step>)
    requires Ran(cfg, s, steps0, t0) && t0.phase == Effects && NoneIn(t0, StateChange)
    requires AllEffects(steps0)
    ensures Ran(cfg, s, steps, t) && t.phase == Effects && NoneIn(t, StateChange) && t.toExecute == t.toRetract == {}
    ensures AllEffects(steps)
  {
    t, steps := ExecuteAll(cfg, s, t0, steps0);
    t, steps := RetractAll(cfg, s, t, steps);
  }

  method ExecuteAll(cfg: PlanConf, ghost s: Plan, t0: Plan, ghost steps0: seq<Step>)
      returns (t: Plan, ghost steps: seq<Step>)
    requires Ran(cfg, s, steps0, t0) && t0.phase == Effects && NoneIn(t0, StateChange)
    requires AllEffects(steps0)
    ensures Ran(cfg, s, steps, t) && t.phase == Effects && NoneIn(t, StateChange) && t.toExecute == {}
    ensures AllEffects(steps)
  {
    t, steps := t0, steps0;
    while t.toExecute != {}
      invariant Ran(cfg, s, steps, t) && t.phase == Effects && NoneIn(t, StateChange) && AllEffects(steps)
      decreases t.toExecute
    {
      var i :| i in t.toExecute;
      QueuedAssignmentExists(cfg, t, i);
      t, steps := Take(cfg, s, t, steps, Execute(i));
    }
  }

  method RetractAll(cfg: PlanConf, ghost s: Plan, t0: Plan, ghost steps0: seq<Step>)
      returns (t: Plan, ghost steps: seq<Step>)
    requires Ran(cfg, s, steps0, t0) && t0.phase == Effects && NoneIn(t0, StateChange) && t0.toExecute == {}
    requires AllEffects(steps0)
    ensures Ran(cfg, s, steps, t) && t.phase == Effects && NoneIn(t, StateChange) && t.toExecute == t.toRetract == {}
    ensures AllEffects(steps)
  {
    t, steps := t0, steps0;
    while t.toRetract != {}
      invariant Ran(cfg, s, steps, t) && t.phase == Effects && NoneIn(t, StateChange) && t.toExecute == {}
      invariant AllEffects(steps)
      decreases t.toRetract
    {
      var i :| i in t.toRetract;
      QueuedAssignmentExists(cfg, t, i);
      t, steps := Take(cfg, s, t, steps, Retract(i));
    }
  }

  /** One pass of the loop and its test. */
  method Pass(cfg: PlanConf, start: Plan, input: Inputs) returns (t: Plan, again: bool, ghost p: PassRun)
    requires Ran(cfg, start, [], start) && start.phase == Checking
    ensures MadePass(cfg, p, input) && p.start == start && p.end == t && Reachable(cfg, t) && Sized(cfg, t)
    ensures |p.decided.nodes| == |cfg| && again == GoesOn(cfg, p.decided, t)
    ensures again <==>
      && (exists i | 0 <= i < |cfg| :: p.decided.nodes[i].queue == StateChange)
      && t.toExecute == {} && t.toRetract == {}
      && (forall i | 0 <= i < |cfg| && p.decided.nodes[i].queue == StateChange && cfg[i].kind == Command ::
            p.decided.nodes[i].next != Some(Executing) && p.decided.nodes[i].next != Some(Failing))
      && (exists i | 0 <= i < |t.nodes| :: t.nodes[i].queue == Candidates)
    ensures TotalMoves(t.hist) >= TotalMoves(start.hist) + if again then 1 else 0
  {
    ghost var deciding: seq<Step> := [];
    t, deciding := CheckAll(cfg, start, start, deciding);
    t, deciding := Take(cfg, start, t, deciding, EndCheck);
    t, deciding := ResolveAll(cfg, start, t, deciding);
    t, deciding := Take(cfg, start, t, deciding, EndResolve);
    p := PassRun(start, deciding, t, [], t);
    WhenItRests(cfg, t, t);
    if NoneIn(t, StateChange) {
      return t, false, p;
    }
    var commands;
    ghost var moving;
    t, commands, moving := CommitAll(cfg, t, input);
    t, moving := NotifyAll(cfg, p.decided, t, moving, input);
    p := p.(moving := moving, end := t);
    again := !commands && t.toExecute == {} && t.toRetract == {} && !NoneIn(t, Candidates);
    WhenItRests(cfg, p.decided, t);
  }

  /** The plan in which the pass after these starts. */
  ghost predicate StartsPass(cfg: PlanConf, s: Plan, passes: seq<PassRun>, inputs: seq<Inputs>, t: Plan)
    requires |passes| < |inputs| && Sized(cfg, s)
  {
    var input := inputs[|passes|];
    if passes == [] then
      Enabled(cfg, s, Begin(input.values, input.handles)) && t == Apply(cfg, s, Begin(input.values, input.handles))
    else
      NextPass(cfg, passes[|passes| - 1], input, t)
  }

  ghost predicate NextPass(cfg: PlanConf, p: PassRun, input: Inputs, t: Plan) {
    && |p.decided.nodes| == |cfg| && GoesOn(cfg, p.decided, p.end)
    && Sized(cfg, p.end) && Enabled(cfg, p.end, Again(input.values, input.handles))
    && t == Apply(cfg, p.end, Again(input.values, input.handles))
  }

  /** Passes follow one another as long as the loop's test holds, each with its own inputs. */
  ghost predicate MadePasses(cfg: PlanConf, s: Plan, passes: seq<PassRun>, inputs: seq<Inputs>) {
    && Sized(cfg, s) && |passes| <= |inputs|
    && forall k | 0 <= k < |passes| ::
         MadePass(cfg, passes[k], inputs[k]) && StartsPass(cfg, s, passes[..k], inputs, passes[k].start)
  }

  lemma OneMorePass(cfg: PlanConf, s: Plan, passes: seq<PassRun>, inputs: seq<Inputs>, p: PassRun)
    requires MadePasses(cfg, s, passes, inputs) && |passes| < |inputs|
    requires MadePass(cfg, p, inputs[|passes|]) && StartsPass(cfg, s, passes, inputs, p.start)
    ensures MadePasses(cfg, s, passes + [p], inputs)
  {
    forall k | 0 <= k < |passes + [p]|
      ensures MadePass(cfg, (passes + [p])[k], inputs[k])
      ensures StartsPass(cfg, s, (passes + [p])[..k], inputs, (passes + [p])[k].start)
    {
      assert (passes + [p])[..k] == passes[..k];
      assert k == |passes| ==> passes[..k] == passes;
    }
  }

  /** The last pass failed the loop's test, or passed it. */
  ghost predicate Tested(cfg: PlanConf, last: PassRun, again: bool, t: Plan) {
    && |last.decided.nodes| == |cfg| && t == last.end && again == GoesOn(cfg, last.decided, last.end)
    && t.phase == Committing && NoneIn(t, StateChange)
  }

  /** The next pass is about to start; each pass so far has made a move. */
  ghost predicate Going(cfg: PlanConf, s: Plan, steps: seq<Step>, passes: seq<PassRun>, inputs: seq<Inputs>, t: Plan) {
    && Ran(cfg, s, steps, t) && MadePasses(cfg, s, passes, inputs) && |passes| < |inputs|
    && t.phase == Checking && StartsPass(cfg, s, passes, inputs, t) && TotalMoves(t.hist) >= |passes|
  }

  /** The loop has ended, by its test or because the inputs are used up. */
  ghost predicate Rested(cfg: PlanConf, s: Plan, steps: seq<Step>, passes: seq<PassRun>, inputs: seq<Inputs>, t: Plan,
                         again: bool)
  {
    && Ran(cfg, s, steps, t) && MadePasses(cfg, s, passes, inputs)
    && passes != [] && Tested(cfg, passes[|passes| - 1], again, t)
    && (again ==> TotalMoves(t.hist) >= |passes|)
  }

  lemma {:induction false} PassIsRun(cfg: PlanConf, s: Plan, steps: seq<Step>, p: PassRun, input: Inputs)
    requires IsRun(cfg, s, steps, p.start) && MadePass(cfg, p, input)
    ensures IsRun(cfg, s, steps + p.deciding + p.moving, p.end)
  {
    RunThenRun(cfg, s, steps, p.start, p.deciding, p.decided);
    RunThenRun(cfg, s, steps + p.deciding, p.decided, p.moving, p.end);
  }

  /** One turn of the loop; rest are the inputs from this pass on. */
  method OnePass(cfg: PlanConf, ghost s: Plan, t0: Plan, ghost passes0: seq<PassRun>,
                 ghost inputs: seq<Inputs>, ghost steps0: seq<Step>, rest: seq<Inputs>)
      returns (t: Plan, again: bool, ghost passes: seq<PassRun>, ghost steps: seq<Step>)
    requires Going(cfg, s, steps0, passes0, inputs, t0) && rest == inputs[|passes0|..]
    ensures |passes| == |passes0| + 1
    ensures if again && |passes| < |inputs| then Going(cfg, s, steps, passes, inputs, t)
            else Rested(cfg, s, steps, passes, inputs, t, again)
  {
    ghost var p;
    t, again, p := Pass(cfg, t0, rest[0]);
    OneMorePass(cfg, s, passes0, inputs, p);
    PassIsRun(cfg, s, steps0, p, rest[0]);
    passes, steps := passes0 + [p], steps0 + p.deciding + p.moving;
    if again && |rest| > 1 {
      t, steps := Take(cfg, s, t, steps, Again(rest[1].values, rest[1].handles));
    }
  }

  /** The quiescence loop, until its test fails or the inputs are used up. */
  method Loop(cfg: PlanConf, ghost s: Plan, t0: Plan, inputs: seq<Inputs>, ghost steps0: seq<Step>)
      returns (t: Plan, again: bool, ghost passes: seq<PassRun>, ghost steps: seq<Step>)
    requires inputs != [] && Going(cfg, s, steps0, [], inputs, t0)
    ensures Rested(cfg, s, steps, passes, inputs, t, again) && (again ==> |passes| == |inputs|)
  {
    t, passes, steps := t0, [], steps0;
    for p := 0 to |inputs|
      invariant p == |passes|
      invariant if p < |inputs| then Going(cfg, s, steps, passes, inputs, t)
                else Rested(cfg, s, steps, passes, inputs, t, true)
    {
      t, again, passes, steps := OnePass(cfg, s, t, passes, inputs, steps, inputs[p..]);
      if !again {
        return;
      }
    }
    again := true;
  }

  /** Every pass but the last left a candidate, made a move, and queued no side effect. */
  lemma {:induction false} EarlierPassesWentOn(cfg: PlanConf, s: Plan, passes: seq<PassRun>, inputs: seq<Inputs>,
                                               k: nat)
    requires MadePasses(cfg, s, passes, inputs) && k + 1 < |passes|
    ensures var p := passes[k];
      && |p.decided.nodes| == |cfg|
      && (exists i | 0 <= i < |cfg| :: p.decided.nodes[i].queue == StateChange)
      && (forall i | 0 <= i < |p.end.nodes| :: p.end.nodes[i].queue != StateChange)
      && p.end.toExecute == {} && p.end.toRetract == {}
      && (forall i | 0 <= i < |cfg| && p.decided.nodes[i].queue == StateChange && cfg[i].kind == Command ::
            p.decided.nodes[i].next != Some(Executing) && p.decided.nodes[i].next != Some(Failing))
      && (exists i | 0 <= i < |p.end.nodes| :: p.end.nodes[i].queue == Candidates)
  {
    assert StartsPass(cfg, s, passes[..k + 1], inputs, passes[k + 1].start);
    assert passes[..k + 1][k] == passes[k];
    WhenItRests(cfg, passes[k].decided, passes[k].end);
  }

  /** All queued assignments and retractions have been performed, and nothing else. */
  ghost predicate Performed(cfg: PlanConf, end: Plan, t: Plan) {
    && t.phase == Idle && NoneIn(t, StateChange) && t.toExecute == t.toRetract == {}
    && exists effects :: IsRun(cfg, end, effects, t) && AllEffects(effects)
  }

  /** The side effects after the loop. */
  method Conclude(cfg: PlanConf, ghost s: Plan, t0: Plan, ghost steps0: seq<Step>)
      returns (t: Plan, ghost steps: seq<Step>)
    requires Ran(cfg, s, steps0, t0) && t0.phase == Committing && NoneIn(t0, StateChange)
    ensures Ran(cfg, s, steps, t) && Performed(cfg, t0, t)
  {
    ghost var effects;
    t, effects := Take(cfg, t0, t0, [], EndLoop);
    t, effects := PerformAll(cfg, t0, t, effects);
    t, effects := Take(cfg, t0, t, effects, EndEffects);
    RunThenRun(cfg, s, steps0, t0, effects, t);
    steps := steps0 + effects;
  }

  lemma {:induction false} BudgetIsKept(cfg: PlanConf, t: Plan, repeats: seq<nat>)
    requires WellFormed(cfg) && Reachable(cfg, t) && Sized(cfg, t)
    ensures |repeats| == |cfg| && RepeatsWithin(t, repeats) ==> TotalMoves(t.hist) <= TotalBudget(cfg, repeats, |cfg|)
  {
    ReachableAll(cfg, t);
    if |repeats| == |cfg| && RepeatsWithin(t, repeats) {
      BudgetHolds(cfg, t, repeats);
    }
  }

  ghost predicate Ended(cfg: PlanConf, last: PassRun, finished: bool, t: Plan) {
    && Tested(cfg, last, !finished, last.end)
    && if finished then Performed(cfg, last.end, t) else t == last.end
  }

  /** The macro step, given what each pass meets.  It makes passes exactly as long as the loop's
      test holds, then performs the assignments; the whole is a run of the step system.  If the
      inputs last longer than the budget that the plan's shape and the repeats allow, it comes
      to rest before they are used up. */
  method Step(cfg: PlanConf, s: Plan, inputs: seq<Inputs>, ghost repeats: seq<nat>)
      returns (t: Plan, finished: bool, ghost passes: seq<PassRun>, ghost steps: seq<Step>)
    requires WellFormed(cfg) && Reachable(cfg, s) && Sized(cfg, s) && s.phase == Idle && inputs != []
    ensures Ran(cfg, s, steps, t) && MadePasses(cfg, s, passes, inputs) && passes != []
    ensures Ended(cfg, passes[|passes| - 1], finished, t) && (!finished ==> |passes| == |inputs|)
    ensures var last := passes[|passes| - 1];
      finished <==>
        || (forall i | 0 <= i < |cfg| :: last.decided.nodes[i].queue != StateChange)
        || last.end.toExecute != {} || last.end.toRetract != {}
        || (exists i | 0 <= i < |cfg| :: last.decided.nodes[i].queue == StateChange && cfg[i].kind == Command
                                         && last.decided.nodes[i].next in {Some(Executing), Some(Failing)})
        || (forall i | 0 <= i < |last.end.nodes| :: last.end.nodes[i].queue != Candidates)
    ensures |repeats| == |cfg| && RepeatsWithin(t, repeats) && |inputs| > TotalBudget(cfg, repeats, |cfg|) ==> finished
  {
    ReachableAll(cfg, s);
    t, steps := Take(cfg, s, s, [], Begin(inputs[0].values, inputs[0].handles));
    var again;
    t, again, passes, steps := Loop(cfg, s, t, inputs, steps);
    finished := !again;
    WhenItRests(cfg, passes[|passes| - 1].decided, passes[|passes| - 1].end);
    if finished {
      t, steps := Conclude(cfg, s, t, steps);
    } else {
      BudgetIsKept(cfg, t, repeats);
    }
  }
}
