/** Concrete runs that reach the states in which the executive does not do what its
    comments, or a simpler reading of its design, would suggest. */
module Witnesses {
  import opened NodeConstants
  import opened Options
  import opened Conditions
  import opened NodeLogic
  import opened PlanMachine
  import opened PlanInvariant
  import opened WakeUp
  import opened StructuredIteration
  import opened ActiveConditions
  import opened EndElision
  import opened WalkedQueue
  import opened Contention
  import opened PlanTheorems

  // ----- runs of small plans -----

  /** The part of a node's record that the runs below turn on. */
  datatype Mark = Mark(state: NodeState, status: QueueStatus, queue: Queue, next: Option<NodeState>)

  predicate Is(n: NodeRec, m: Mark) {
    n.state == m.state && n.status == m.status && n.queue == m.queue && n.next == m.next
  }

  /** The plan's state, as far as it matters: values is what the conditions are worth, and
      holder has mutex 0; nobody is still to be told of a resource. */
  predicate At(s: Plan, phase: Phase, values: map<(nat, CondIdx), Tri>, holder: Option<nat>, marks: seq<Mark>) {
    && |s.nodes| == |s.hist| == |s.snap| == |marks|
    && s.phase == phase && s.values == values && s.holders(0) == holder
    && s.toExecute == {} && s.toRetract == {} && s.pend.toTell == {}
    && forall i | 0 <= i < |marks| :: Is(s.nodes[i], marks[i])
  }

  /** Nodes that use mutex 0 or none, and assign nothing. */
  ghost predicate Simple(cfg: PlanConf) {
    && WellFormed(cfg)
    && forall i | 0 <= i < |cfg| ::
         (cfg[i].kind == Empty || cfg[i].kind == List) && (cfg[i].mutexes == [0] || cfg[i].mutexes == [])
  }

  lemma {:induction false} Advance(cfg: PlanConf, s: Plan, step: Step, phase: Phase, values: map<(nat, CondIdx), Tri>,
                                   holder: Option<nat>, marks: seq<Mark>) returns (t: Plan)
    requires Simple(cfg) && Reachable(cfg, s) && Sized(cfg, s) && Enabled(cfg, s, step)
    requires At(Apply(cfg, s, step), phase, values, holder, marks)
    ensures Reachable(cfg, t) && Sized(cfg, t) && At(t, phase, values, holder, marks) && t == Apply(cfg, s, step)
  {
    t := ReachStep(cfg, s, step);
  }

  /** A candidate after its check. */
  function Settled(m: Mark, d: Decision, needsResources: bool): Mark {
    if !d.Go? then Mark(m.state, QueueNone, NoQueue, None)
    else if d.to == Executing && needsResources then Mark(m.state, QueuePendingTry, PendingQueue, Some(d.to))
    else Mark(m.state, QueueTransition, StateChange, Some(d.to))
  }

  lemma SettledIs(n: NodeRec, m: Mark, d: Decision, needs: bool)
    requires Is(n, m)
    ensures Is(Checked(n, d, needs), Settled(m, d, needs))
  {
  }

  /** Node i, a candidate, is evaluated. */
  lemma {:induction false} Evaluate(cfg: PlanConf, s: Plan, i: nat, d: Decision, values: map<(nat, CondIdx), Tri>,
                                    holder: Option<nat>, marks: seq<Mark>, after: seq<Mark>) returns (t: Plan)
    requires Simple(cfg) && Reachable(cfg, s) && Sized(cfg, s) && At(s, Checking, values, holder, marks)
    requires i < |marks| && marks[i].queue == Candidates && d == Decide(cfg, s, i)
    requires after == marks[i := Settled(marks[i], d, NeedsResources(cfg[i]))]
    ensures Reachable(cfg, t) && Sized(cfg, t) && At(t, Checking, values, holder, after) && t == CheckNode(cfg, s, i)
    ensures t.pend == if after[i].queue == PendingQueue then Awaiting(cfg, s.pend, i) else s.pend
  {
    CheckShape(cfg, s, i);
    SettledIs(s.nodes[i], marks[i], d, NeedsResources(cfg[i]));
    t := Advance(cfg, s, Check(i), Checking, values, holder, after);
  }

  /** Another node after a move. */
  function WokenMark(wakes: bool, m: Mark): Mark {
    if wakes && m.status == QueueNone then m.(status := QueueCheck, queue := Candidates) else m
  }

  function MovedMark(isRoot: bool, to: NodeState): Mark {
    if to == Finished && isRoot then Mark(to, QueueDelete, FinishedRoots, None)
    else Mark(to, QueueCheck, Candidates, None)
  }

  function AfterMove(cfg: PlanConf, i: nat, marks: seq<Mark>): seq<Mark>
    requires i < |marks| == |cfg| && marks[i].next.Some?
  {
    var to := marks[i].next.value;
    seq(|marks|, j requires 0 <= j < |marks| =>
      if j == i then MovedMark(cfg[i].parent.None?, to)
      else WokenMark(IsChild(cfg, j, i) && Wakes(to, marks[j].state), marks[j]))
  }

  /** Who has mutex 0 after a move. */
  function HolderAfter(cfg: PlanConf, i: nat, from: NodeState, to: NodeState, holder: Option<nat>): Option<nat>
    requires i < |cfg|
  {
    if ReleasesMutexes(from, to) && holder == Some(i) && 0 in cfg[i].mutexes then None else holder
  }

  /** The decided move of node i is committed, and its children are not pending. */
  lemma {:induction false} MoveAnnouncing(cfg: PlanConf, s: Plan, i: nat, values: map<(nat, CondIdx), Tri>,
                                          holder: Option<nat>, marks: seq<Mark>, after: seq<Mark>) returns (t: Plan)
    requires Simple(cfg) && Reachable(cfg, s) && Sized(cfg, s) && At(s, Committing, values, holder, marks)
    requires i < |marks| && marks[i].queue == StateChange && marks[i].next.Some? && after == AfterMove(cfg, i, marks)
    requires forall j | 0 <= j < |marks| && IsChild(cfg, j, i) ::
      marks[j].status == QueueNone || !Wakes(marks[i].next.value, marks[j].state)
    ensures var from, to := marks[i].state, marks[i].next.value;
      && Reachable(cfg, t) && Sized(cfg, t) && t.pend == Announced(cfg, s, i, from, to) && t.snap == s.snap
      && At(t.(pend := s.pend), Committing, values, HolderAfter(cfg, i, from, to, holder), after)
  {
    CommitFrame(cfg, s, i, None);
    CommitShape(cfg, s, i, None);
    t := ReachStep(cfg, s, Commit(i, None));
    MoveFrame(cfg, s, i);
    forall j | 0 <= j < |marks| ensures Is(t.nodes[j], after[j]) {
      if j != i { WokenIs(IsChild(cfg, j, i), marks[i].next.value, s.nodes[j], marks[j]); }
    }
  }

  /** A move that gives back nothing. */
  lemma {:induction false} Move(cfg: PlanConf, s: Plan, i: nat, values: map<(nat, CondIdx), Tri>, holder: Option<nat>,
                                marks: seq<Mark>, after: seq<Mark>) returns (t: Plan)
    requires Simple(cfg) && Reachable(cfg, s) && Sized(cfg, s) && At(s, Committing, values, holder, marks)
    requires i < |marks| && marks[i].queue == StateChange && marks[i].next.Some? && after == AfterMove(cfg, i, marks)
    requires forall j | 0 <= j < |marks| && IsChild(cfg, j, i) ::
      marks[j].status == QueueNone || !Wakes(marks[i].next.value, marks[j].state)
    requires !ReleasesMutexes(marks[i].state, marks[i].next.value) || holder != Some(i)
    ensures Reachable(cfg, t) && Sized(cfg, t) && t.pend == s.pend && t.snap == s.snap
    ensures At(t, Committing, values, holder, after)
  {
    NothingAnnounced(cfg, s, i, marks[i].state, marks[i].next.value);
    t := MoveAnnouncing(cfg, s, i, values, holder, marks, after);
    assert t == t.(pend := s.pend);
  }

  lemma WokenIs(isChild: bool, to: NodeState, n: NodeRec, m: Mark)
    requires Is(n, m) && (m.status == QueueNone || !(isChild && Wakes(to, m.state)))
    ensures Is(Woken(isChild, to, n), WokenMark(isChild && Wakes(to, m.state), m))
  {
  }

  /** What a move of a node that is no Assignment leaves as it was. */
  lemma {:induction false} MoveFrame(cfg: PlanConf, s: Plan, i: nat)
    requires Sized(cfg, s) && i < |cfg| && s.nodes[i].next.Some? && cfg[i].kind != Assignment
    ensures var t, from, to := CommitNode(cfg, s, i, None), s.nodes[i].state, s.nodes[i].next.value;
      && t.phase == s.phase && t.values == s.values && t.toExecute == s.toExecute && t.toRetract == s.toRetract
      && t.holders(0) == HolderAfter(cfg, i, from, to, s.holders(0))
      && |t.hist| == |s.hist| && t.pend == Announced(cfg, s, i, from, to)
  {
  }

  /** A move that gives back nothing concerns nobody who waits. */
  lemma {:induction false} NothingAnnounced(cfg: PlanConf, s: Plan, i: nat, from: NodeState, to: NodeState)
    requires Simple(cfg) && i < |cfg| && s.pend.toTell == {}
    requires !ReleasesMutexes(from, to) || s.holders(0) != Some(i)
    ensures Announced(cfg, s, i, from, to) == s.pend
  {
    var given := Returned(cfg[i], i, from, to, s.holders);
    forall j | j in s.pend.waiters && j < |cfg| ensures !Uses(cfg[j], given, None) {
    }
  }

  lemma {:induction false} ToChecking(cfg: PlanConf, s: Plan, v: map<(nat, CondIdx), Tri>,
                                      values: map<(nat, CondIdx), Tri>,
                                      holder: Option<nat>, marks: seq<Mark>) returns (t: Plan)
    requires Simple(cfg) && Reachable(cfg, s) && Sized(cfg, s) && At(s, Committing, values, holder, marks)
    requires forall i | 0 <= i < |marks| :: marks[i].queue != StateChange
    ensures Reachable(cfg, t) && Sized(cfg, t) && At(t, Checking, v, holder, marks) && t.pend == s.pend
  {
    t := Advance(cfg, s, Again(v, map[]), Checking, v, holder, marks);
  }

  lemma {:induction false} ToResolving(cfg: PlanConf, s: Plan, values: map<(nat, CondIdx), Tri>, holder: Option<nat>,
                                       marks: seq<Mark>) returns (t: Plan)
    requires Simple(cfg) && Reachable(cfg, s) && Sized(cfg, s) && At(s, Checking, values, holder, marks)
    requires forall i | 0 <= i < |marks| :: marks[i].queue != Candidates
    ensures Reachable(cfg, t) && Sized(cfg, t) && At(t, Resolving, values, holder, marks) && t.snap == s.snap
    ensures t.pend == s.pend.(walk := s.pend.queue, turns := [])
  {
    ReachableAll(cfg, s);
    t := Advance(cfg, s, EndCheck, Resolving, values, holder, marks);
  }

  lemma {:induction false} ToCommitting(cfg: PlanConf, s: Plan, values: map<(nat, CondIdx), Tri>, holder: Option<nat>,
                                        marks: seq<Mark>) returns (t: Plan)
    requires Simple(cfg) && Reachable(cfg, s) && Sized(cfg, s) && At(s, Resolving, values, holder, marks)
    requires s.pend.turns == s.pend.walk == []
    ensures Reachable(cfg, t) && Sized(cfg, t) && At(t, Committing, values, holder, marks) && t.snap == s.snap
    ensures t.pend == s.pend
  {
    t := Advance(cfg, s, EndResolve, Committing, values, holder, marks);
  }

  lemma {:induction false} NobodyPending(cfg: PlanConf, s: Plan, phase: Phase, values: map<(nat, CondIdx), Tri>,
                                         holder: Option<nat>, marks: seq<Mark>)
    requires Simple(cfg) && Reachable(cfg, s) && Sized(cfg, s) && At(s, phase, values, holder, marks)
    requires forall i | 0 <= i < |marks| :: marks[i].queue != PendingQueue
    ensures s.pend.queue == []
  {
    if s.pend.queue != [] {
      assert s.pend.queue[0] in s.pend.queue;
      ReachableAll(cfg, s);
      assert false;
    }
  }

  /** From checking straight to committing, nothing being pending for resources. */
  lemma {:induction false} Quiesce(cfg: PlanConf, s: Plan, values: map<(nat, CondIdx), Tri>, holder: Option<nat>,
                                   marks: seq<Mark>) returns (t: Plan)
    requires Simple(cfg) && Reachable(cfg, s) && Sized(cfg, s) && At(s, Checking, values, holder, marks)
    requires forall i | 0 <= i < |marks| :: marks[i].queue != Candidates && marks[i].queue != PendingQueue
    ensures Reachable(cfg, t) && Sized(cfg, t) && At(t, Committing, values, holder, marks) && t.snap == s.snap
  {
    NobodyPending(cfg, s, Checking, values, holder, marks);
    t := ToResolving(cfg, s, values, holder, marks);
    t := ToCommitting(cfg, t, values, holder, marks);
  }

  // ----- a pass over the pending queue -----

  /** The first batch of the walk; here everybody has the same priority. */
  lemma {:induction false} Batch(cfg: PlanConf, s: Plan, values: map<(nat, CondIdx), Tri>, holder: Option<nat>,
                                 marks: seq<Mark>, turns: seq<nat>) returns (t: Plan)
    requires Simple(cfg) && Reachable(cfg, s) && Sized(cfg, s) && At(s, Resolving, values, holder, marks)
    requires s.pend.turns == [] && s.pend.walk != []
    requires Batched(cfg, s) == s.pend.(turns := turns, walk := [])
    ensures Reachable(cfg, t) && Sized(cfg, t) && At(t, Resolving, values, holder, marks)
    ensures t == s.(pend := s.pend.(turns := turns, walk := []))
  {
    t := Advance(cfg, s, NextBatch, Resolving, values, holder, marks);
  }

  /** A single node is pending. */
  lemma {:induction false} BatchOfOne(cfg: PlanConf, s: Plan, i: nat)
    requires s.pend.walk == [i]
    ensures Batched(cfg, s) == s.pend.(turns := [i], walk := [])
  {
    var looked := Looked(s.pend.walk, Leaving(cfg, s), Priorities(cfg));
    assert looked == [i] && looked[1..] == [];
    SplitOne(i, Trying(cfg, s, false), Trying(cfg, s, true));
  }

  lemma {:induction false} SplitOne(i: nat, p: nat -> bool, q: nat -> bool)
    requires p(i) == !q(i)
    ensures Those([i], p) + Those([i], q) == [i]
  {
    assert [i][1..] == [];
  }

  /** The record's mark after a turn. */
  ghost predicate TurnGives(cfg: PlanConf, s: Plan, i: nat, m: Mark)
    requires i < |cfg| == |s.nodes|
  {
    Is(Resolved(s.nodes[i], Decide(cfg, s, i), CanAcquire(cfg[i], s)), m)
  }

  function HolderAfterTurn(cfg: PlanConf, s: Plan, i: nat, holder: Option<nat>): Option<nat>
    requires i < |cfg|
  {
    if MayTry(cfg, s, i) && CanAcquire(cfg[i], s) then Some(i) else holder
  }

  /** Node i, which does not hold mutex 0, has its turn. */
  lemma {:induction false} Turn(cfg: PlanConf, s: Plan, i: nat, values: map<(nat, CondIdx), Tri>, holder: Option<nat>,
                                marks: seq<Mark>, m: Mark) returns (t: Plan)
    requires Simple(cfg) && Reachable(cfg, s) && Sized(cfg, s) && At(s, Resolving, values, holder, marks)
    requires i < |cfg| && cfg[i].mutexes == [0] && holder != Some(i) && TurnGives(cfg, s, i, m)
    requires marks[i].queue == PendingQueue && s.pend.turns != [] && s.pend.turns[0] == i
    ensures Reachable(cfg, t) && Sized(cfg, t)
    ensures At(t, Resolving, values, HolderAfterTurn(cfg, s, i, holder), marks[i := m])
    ensures t.pend.turns == s.pend.turns[1..] && t.pend.walk == s.pend.walk && t.values == s.values
    ensures t.pend.queue == if m.queue == PendingQueue then s.pend.queue else Without(s.pend.queue, i)
  {
    TurnGoes(cfg, s, i);
    TurnQueue(cfg, s, i, m);
    TurnHolder(cfg, s, i, holder);
    TurnTellsNobody(cfg, s, i, holder);
    ResolveShape(cfg, s, i);
    t := Advance(cfg, s, Resolve(i), Resolving, values, HolderAfterTurn(cfg, s, i, holder), marks[i := m]);
  }

  lemma {:induction false} TurnQueue(cfg: PlanConf, s: Plan, i: nat, m: Mark)
    requires Sized(cfg, s) && i < |cfg| && TurnGives(cfg, s, i, m)
    ensures ResolveNode(cfg, s, i).pend.queue ==
      if m.queue == PendingQueue then s.pend.queue else Without(s.pend.queue, i)
  {
  }

  lemma {:induction false} TurnHolder(cfg: PlanConf, s: Plan, i: nat, holder: Option<nat>)
    requires Simple(cfg) && Sized(cfg, s) && i < |cfg| && cfg[i].mutexes == [0]
    requires s.holders(0) == holder && holder != Some(i)
    ensures ResolveNode(cfg, s, i).holders(0) == HolderAfterTurn(cfg, s, i, holder)
  {
    assert 0 in cfg[i].mutexes;
  }

  lemma {:induction false} TurnTellsNobody(cfg: PlanConf, s: Plan, i: nat, holder: Option<nat>)
    requires Simple(cfg) && Sized(cfg, s) && i < |cfg| && cfg[i].mutexes == [0]
    requires s.holders(0) == holder && holder != Some(i) && s.pend.toTell == {}
    ensures ResolveNode(cfg, s, i).pend.toTell == {}
  {
    assert 0 in cfg[i].mutexes;
    if holder.Some? {
      assert FreeOnes(cfg[i].mutexes, s.holders) == [];
      var given := GivenBack(cfg[i], i, s.holders);
      forall j | j in s.pend.waiters && j < |cfg| ensures !Uses(cfg[j], given, None) {
      }
      assert WaitersOn(cfg, s.pend.waiters - {i}, given, None) == {};
    }
  }

  /** A turn of a node that wants the mutex, and gets it. */
  lemma {:induction false} GrantedTurn(cfg: PlanConf, s: Plan, i: nat, values: map<(nat, CondIdx), Tri>,
                                       marks: seq<Mark>) returns (t: Plan)
    requires Simple(cfg) && Reachable(cfg, s) && Sized(cfg, s) && At(s, Resolving, values, None, marks)
    requires i < |cfg| && cfg[i].mutexes == [0] && marks[i] == TRYING && s.pend.turns != [] && s.pend.turns[0] == i
    ensures Reachable(cfg, t) && Sized(cfg, t) && At(t, Resolving, values, Some(i), marks[i := GRANTED])
    ensures t.pend.turns == s.pend.turns[1..] && t.pend.walk == s.pend.walk
    ensures t.pend.queue == Without(s.pend.queue, i)
  {
    assert CanAcquire(cfg[i], s);
    t := Turn(cfg, s, i, values, None, marks, GRANTED);
  }

  /** A turn of a node that wants the mutex which another has. */
  lemma {:induction false} RefusedTurn(cfg: PlanConf, s: Plan, i: nat, values: map<(nat, CondIdx), Tri>, holder: nat,
                                       marks: seq<Mark>) returns (t: Plan)
    requires Simple(cfg) && Reachable(cfg, s) && Sized(cfg, s) && At(s, Resolving, values, Some(holder), marks)
    requires i < |cfg| && cfg[i].mutexes == [0] && marks[i] == TRYING && s.pend.turns != [] && s.pend.turns[0] == i
    requires holder != i
    ensures Reachable(cfg, t) && Sized(cfg, t) && At(t, Resolving, values, Some(holder), marks[i := PENDING])
    ensures t.pend.turns == s.pend.turns[1..] && t.pend.walk == s.pend.walk && t.pend.queue == s.pend.queue
  {
    assert 0 in cfg[i].mutexes && !CanAcquire(cfg[i], s);
    t := Turn(cfg, s, i, values, Some(holder), marks, PENDING);
  }

  /** A turn of a node that has not been told anything. */
  lemma {:induction false} IdleTurn(cfg: PlanConf, s: Plan, i: nat, values: map<(nat, CondIdx), Tri>, holder: nat,
                                    marks: seq<Mark>) returns (t: Plan)
    requires Simple(cfg) && Reachable(cfg, s) && Sized(cfg, s) && At(s, Resolving, values, Some(holder), marks)
    requires i < |cfg| && cfg[i].mutexes == [0] && marks[i] == PENDING && s.pend.turns != [] && s.pend.turns[0] == i
    requires holder != i
    ensures Reachable(cfg, t) && Sized(cfg, t) && At(t, Resolving, values, Some(holder), marks)
    ensures t.pend.turns == s.pend.turns[1..] && t.pend.walk == s.pend.walk && t.pend.queue == s.pend.queue
  {
    assert marks[i := PENDING] == marks;
    t := Turn(cfg, s, i, values, Some(holder), marks, PENDING);
  }

  // ----- a whole micro-step -----

  predicate Moves(marks: seq<Mark>, ds: seq<Decision>, i: nat)
    requires i < |marks| == |ds|
  {
    marks[i].queue == Candidates && ds[i].Go?
  }

  /** Node j is told by its parent's move, if its parent is among the first n nodes. */
  predicate ToldBy(cfg: PlanConf, marks: seq<Mark>, ds: seq<Decision>, n: nat, j: nat)
    requires n <= |marks| == |ds| == |cfg| && j < |marks|
  {
    var p := cfg[j].parent;
    p.Some? && p.value < n && Moves(marks, ds, p.value) && Wakes(ds[p.value].to, marks[j].state)
  }

  /** Marks after every candidate has been evaluated and the moves of the first n nodes made. */
  function Made(cfg: PlanConf, marks: seq<Mark>, ds: seq<Decision>, n: nat, j: nat): Mark
    requires n <= |marks| == |ds| == |cfg| && j < |marks|
  {
    if Moves(marks, ds, j) then
      if j < n then Mark(ds[j].to, QueueCheck, Candidates, None)
      else Mark(marks[j].state, QueueTransition, StateChange, Some(ds[j].to))
    else WokenMark(ToldBy(cfg, marks, ds, n, j),
                   if marks[j].queue == Candidates then Mark(marks[j].state, QueueNone, NoQueue, None) else marks[j])
  }

  function AllMade(cfg: PlanConf, marks: seq<Mark>, ds: seq<Decision>, n: nat): seq<Mark>
    requires n <= |marks| == |ds| == |cfg|
  {
    seq(|marks|, j requires 0 <= j < |marks| => Made(cfg, marks, ds, n, j))
  }

  /** Each node is a candidate or in no queue; those that move need no resources, give none
      back, are no finishing roots, and are not told by their parents' moves. */
  ghost predicate Plain(cfg: PlanConf, holder: Option<nat>, marks: seq<Mark>, ds: seq<Decision>, i: nat)
    requires |marks| == |ds| == |cfg| && i < |cfg|
  {
    && (marks[i].queue == NoQueue || marks[i].queue == Candidates)
    && (marks[i].queue == NoQueue <==> marks[i].status == QueueNone)
    && (Moves(marks, ds, i) ==>
          && !(ds[i].to == Executing && NeedsResources(cfg[i]))
          && (ds[i].to != Finished || cfg[i].parent.Some?)
          && (holder != Some(i) || !ReleasesMutexes(marks[i].state, ds[i].to))
          && !ToldBy(cfg, marks, ds, |cfg|, i))
  }

  /** The plan as it is evaluated with the values v. */
  function Seeing(s: Plan, v: map<(nat, CondIdx), Tri>): Plan {
    s.(values := v, handles := map[])
  }

  /** From one pass of the quiescence loop to the next: the candidates decide on the values v,
      and all decided moves are made. */
  lemma {:induction false} Cycle(cfg: PlanConf, s: Plan, phase: Phase, values: map<(nat, CondIdx), Tri>,
                                 v: map<(nat, CondIdx), Tri>, holder: Option<nat>, marks: seq<Mark>,
                                 ds: seq<Decision>, after: seq<Mark>) returns (t: Plan)
    requires Simple(cfg) && Reachable(cfg, s) && Sized(cfg, s) && At(s, phase, values, holder, marks)
    requires phase == Idle || phase == Committing
    requires |ds| == |cfg| && forall i | 0 <= i < |cfg| :: Plain(cfg, holder, marks, ds, i)
    requires forall i | 0 <= i < |cfg| && marks[i].queue == Candidates :: ds[i] == Decide(cfg, Seeing(s, v), i)
    requires |after| == |cfg| && forall i | 0 <= i < |cfg| :: after[i] == Made(cfg, marks, ds, |cfg|, i)
    ensures Reachable(cfg, t) && Sized(cfg, t) && At(t, Committing, v, holder, after)
    ensures t.snap == StatesOf(s)
  {
    assert forall i | 0 <= i < |cfg| :: Plain(cfg, holder, marks, ds, i) ==> marks[i].queue != StateChange;
    t := Advance(cfg, s, if phase == Idle then Begin(v, map[]) else Again(v, map[]), Checking, v, holder, marks);
    forall i | 0 <= i < |cfg| && marks[i].queue == Candidates ensures ds[i] == Decide(cfg, t, i) {
      SameDecision(cfg, Seeing(s, v), t, i);
    }
    t := EvaluateAll(cfg, t, v, holder, marks, ds, |cfg|);
    NothingMadeYet(cfg, holder, marks, ds);
    t := Quiesce(cfg, t, v, holder, AllMade(cfg, marks, ds, 0));
    t := MoveAll(cfg, t, v, holder, marks, ds, |cfg|);
  }

  /** The first n nodes have been evaluated. */
  function Evaluated(marks: seq<Mark>, ds: seq<Decision>, n: nat): seq<Mark>
    requires |marks| == |ds|
  {
    seq(|marks|, j requires 0 <= j < |marks| =>
      if j < n && marks[j].queue == Candidates then Settled(marks[j], ds[j], false) else marks[j])
  }

  lemma {:induction false} EvaluateAll(cfg: PlanConf, s: Plan, v: map<(nat, CondIdx), Tri>, holder: Option<nat>,
                                       marks: seq<Mark>, ds: seq<Decision>, n: nat) returns (t: Plan)
    requires Simple(cfg) && Reachable(cfg, s) && Sized(cfg, s) && At(s, Checking, v, holder, marks) && n <= |cfg|
    requires |ds| == |cfg| && forall i | 0 <= i < |cfg| :: Plain(cfg, holder, marks, ds, i)
    requires forall i | 0 <= i < |cfg| && marks[i].queue == Candidates :: ds[i] == Decide(cfg, s, i)
    ensures Reachable(cfg, t) && Sized(cfg, t)
    ensures At(t, Checking, v, holder, Evaluated(marks, ds, n)) && t.snap == s.snap
    ensures t.values == s.values && t.handles == s.handles
    ensures forall j | 0 <= j < |cfg| :: SameBasis(s.nodes[j], t.nodes[j])
  {
    if n == 0 {
      NobodyEvaluated(marks, ds);
      t := s;
    } else {
      t := EvaluateAll(cfg, s, v, holder, marks, ds, n - 1);
      t := EvaluateStep(cfg, s, t, v, holder, marks, ds, n - 1);
    }
  }

  /** From s to t the nodes before i have been evaluated. */
  lemma {:induction false} EvaluateStep(cfg: PlanConf, s: Plan, t: Plan, v: map<(nat, CondIdx), Tri>,
                                        holder: Option<nat>,
                                        marks: seq<Mark>, ds: seq<Decision>, i: nat) returns (u: Plan)
    requires Simple(cfg) && |cfg| == |s.nodes| && Reachable(cfg, t) && Sized(cfg, t) && i < |cfg| == |marks| == |ds|
    requires At(t, Checking, v, holder, Evaluated(marks, ds, i))
    requires forall j | 0 <= j < |cfg| :: Plain(cfg, holder, marks, ds, j)
    requires marks[i].queue == Candidates ==> ds[i] == Decide(cfg, s, i)
    requires t.values == s.values && t.handles == s.handles
    requires forall j | 0 <= j < |cfg| :: SameBasis(s.nodes[j], t.nodes[j])
    ensures Reachable(cfg, u) && Sized(cfg, u)
    ensures At(u, Checking, v, holder, Evaluated(marks, ds, i + 1)) && u.snap == t.snap
    ensures u.values == s.values && u.handles == s.handles
    ensures forall j | 0 <= j < |cfg| :: SameBasis(s.nodes[j], u.nodes[j])
  {
    if marks[i].queue == Candidates {
      SameDecision(cfg, s, t, i);
      u := EvaluateNext(cfg, t, v, holder, marks, ds, i);
    } else {
      NotEvaluated(marks, ds, i);
      u := t;
    }
  }

  lemma {:induction false} EvaluateNext(cfg: PlanConf, s: Plan, v: map<(nat, CondIdx), Tri>, holder: Option<nat>,
                                        marks: seq<Mark>, ds: seq<Decision>, i: nat) returns (t: Plan)
    requires Simple(cfg) && Reachable(cfg, s) && Sized(cfg, s) && i < |cfg| == |marks| == |ds|
    requires At(s, Checking, v, holder, Evaluated(marks, ds, i))
    requires forall j | 0 <= j < |cfg| :: Plain(cfg, holder, marks, ds, j)
    requires marks[i].queue == Candidates && ds[i] == Decide(cfg, s, i)
    ensures Reachable(cfg, t) && Sized(cfg, t)
    ensures At(t, Checking, v, holder, Evaluated(marks, ds, i + 1)) && t.snap == s.snap
    ensures t.values == s.values && t.handles == s.handles
    ensures forall j | 0 <= j < |cfg| :: SameBasis(s.nodes[j], t.nodes[j])
  {
    assert Evaluated(marks, ds, i)[i] == marks[i];
    SettledNext(cfg, holder, marks, ds, i);
    t := Evaluate(cfg, s, i, ds[i], v, holder, Evaluated(marks, ds, i), Evaluated(marks, ds, i + 1));
    CheckShape(cfg, s, i);
    CheckedBasis(s.nodes[i], ds[i], NeedsResources(cfg[i]));
  }

  lemma CheckedBasis(n: NodeRec, d: Decision, needs: bool)
    ensures SameBasis(n, Checked(n, d, needs))
  {
  }

  lemma NobodyEvaluated(marks: seq<Mark>, ds: seq<Decision>)
    requires |marks| == |ds|
    ensures Evaluated(marks, ds, 0) == marks
  {
  }

  lemma NotEvaluated(marks: seq<Mark>, ds: seq<Decision>, i: nat)
    requires i < |marks| == |ds| && marks[i].queue != Candidates
    ensures Evaluated(marks, ds, i + 1) == Evaluated(marks, ds, i)
  {
  }

  lemma {:induction false} SettledNext(cfg: PlanConf, holder: Option<nat>, marks: seq<Mark>, ds: seq<Decision>, i: nat)
    requires i < |cfg| == |marks| == |ds| && Plain(cfg, holder, marks, ds, i) && marks[i].queue == Candidates
    ensures Evaluated(marks, ds, i + 1)
         == Evaluated(marks, ds, i)[i := Settled(marks[i], ds[i], NeedsResources(cfg[i]))]
  {
  }

  lemma {:induction false} NothingMadeYet(cfg: PlanConf, holder: Option<nat>, marks: seq<Mark>, ds: seq<Decision>)
    requires |cfg| == |marks| == |ds| && forall i | 0 <= i < |cfg| :: Plain(cfg, holder, marks, ds, i)
    ensures Evaluated(marks, ds, |cfg|) == AllMade(cfg, marks, ds, 0)
    ensures forall i | 0 <= i < |cfg| ::
      Evaluated(marks, ds, |cfg|)[i].queue != Candidates && Evaluated(marks, ds, |cfg|)[i].queue != PendingQueue
  {
    forall j | 0 <= j < |cfg|
      ensures Evaluated(marks, ds, |cfg|)[j] == Made(cfg, marks, ds, 0, j)
      ensures Evaluated(marks, ds, |cfg|)[j].queue != Candidates && Evaluated(marks, ds, |cfg|)[j].queue != PendingQueue
    {
      assert Plain(cfg, holder, marks, ds, j);
    }
  }

  lemma {:induction false} MoveAll(cfg: PlanConf, s: Plan, v: map<(nat, CondIdx), Tri>, holder: Option<nat>,
                                   marks: seq<Mark>, ds: seq<Decision>, n: nat) returns (t: Plan)
    requires Simple(cfg) && Reachable(cfg, s) && Sized(cfg, s) && n <= |cfg| == |marks| == |ds|
    requires At(s, Committing, v, holder, AllMade(cfg, marks, ds, 0))
    requires forall i | 0 <= i < |cfg| :: Plain(cfg, holder, marks, ds, i)
    ensures Reachable(cfg, t) && Sized(cfg, t)
    ensures At(t, Committing, v, holder, AllMade(cfg, marks, ds, n)) && t.snap == s.snap
  {
    if n == 0 {
      t := s;
    } else {
      t := MoveAll(cfg, s, v, holder, marks, ds, n - 1);
      t := MoveStep(cfg, t, v, holder, marks, ds, n - 1);
    }
  }

  lemma {:induction false} MoveStep(cfg: PlanConf, s: Plan, v: map<(nat, CondIdx), Tri>, holder: Option<nat>,
                                    marks: seq<Mark>, ds: seq<Decision>, i: nat) returns (t: Plan)
    requires Simple(cfg) && Reachable(cfg, s) && Sized(cfg, s) && i < |cfg| == |marks| == |ds|
    requires At(s, Committing, v, holder, AllMade(cfg, marks, ds, i))
    requires forall j | 0 <= j < |cfg| :: Plain(cfg, holder, marks, ds, j)
    ensures Reachable(cfg, t) && Sized(cfg, t)
    ensures At(t, Committing, v, holder, AllMade(cfg, marks, ds, i + 1)) && t.snap == s.snap
  {
    if Moves(marks, ds, i) {
      t := MoveNext(cfg, s, v, holder, marks, ds, i);
    } else {
      MadeNext(cfg, holder, marks, ds, i);
      t := s;
    }
  }

  lemma {:induction false} MoveNext(cfg: PlanConf, s: Plan, v: map<(nat, CondIdx), Tri>, holder: Option<nat>,
                                    marks: seq<Mark>, ds: seq<Decision>, i: nat) returns (t: Plan)
    requires Simple(cfg) && Reachable(cfg, s) && Sized(cfg, s) && i < |cfg| == |marks| == |ds| && Moves(marks, ds, i)
    requires At(s, Committing, v, holder, AllMade(cfg, marks, ds, i))
    requires forall j | 0 <= j < |cfg| :: Plain(cfg, holder, marks, ds, j)
    ensures Reachable(cfg, t) && Sized(cfg, t)
    ensures At(t, Committing, v, holder, AllMade(cfg, marks, ds, i + 1)) && t.snap == s.snap
  {
    MadeNext(cfg, holder, marks, ds, i);
    assert Plain(cfg, holder, marks, ds, i);
    var m := AllMade(cfg, marks, ds, i);
    assert m[i] == Mark(marks[i].state, QueueTransition, StateChange, Some(ds[i].to));
    assert forall j | 0 <= j < |cfg| && IsChild(cfg, j, i) :: m[j] == Made(cfg, marks, ds, i, j);
    t := Move(cfg, s, i, v, holder, m, AllMade(cfg, marks, ds, i + 1));
  }

  lemma {:induction false} MadeNext(cfg: PlanConf, holder: Option<nat>, marks: seq<Mark>, ds: seq<Decision>, i: nat)
    requires WellFormed(cfg) && i < |cfg| == |marks| == |ds|
    requires forall j | 0 <= j < |cfg| :: Plain(cfg, holder, marks, ds, j)
    ensures !Moves(marks, ds, i) ==> AllMade(cfg, marks, ds, i + 1) == AllMade(cfg, marks, ds, i)
    ensures Moves(marks, ds, i) ==>
      && AllMade(cfg, marks, ds, i + 1) == AfterMove(cfg, i, AllMade(cfg, marks, ds, i))
      && forall j | 0 <= j < |cfg| && IsChild(cfg, j, i) ::
           Made(cfg, marks, ds, i, j).status == QueueNone || !Wakes(ds[i].to, Made(cfg, marks, ds, i, j).state)
  {
    assert Plain(cfg, holder, marks, ds, i);
    forall j | 0 <= j < |cfg|
      ensures Moves(marks, ds, i) ==>
        AllMade(cfg, marks, ds, i + 1)[j] == AfterMove(cfg, i, AllMade(cfg, marks, ds, i))[j]
      ensures !Moves(marks, ds, i) ==> Made(cfg, marks, ds, i + 1, j) == Made(cfg, marks, ds, i, j)
      ensures Moves(marks, ds, i) && IsChild(cfg, j, i) ==>
        Made(cfg, marks, ds, i, j).status == QueueNone || !Wakes(ds[i].to, Made(cfg, marks, ds, i, j).state)
    {
      assert Plain(cfg, holder, marks, ds, j) && NodeWellFormed(cfg, j);
    }
  }

  /** Node i decides as ds says, may do so in a plain micro-step, and ends up as after says. */
  ghost predicate Fits(cfg: PlanConf, s: Plan, holder: Option<nat>, marks: seq<Mark>, ds: seq<Decision>,
                       after: seq<Mark>, i: nat)
    requires |marks| == |ds| == |after| == |cfg| == |s.nodes| && i < |cfg|
  {
    && Plain(cfg, holder, marks, ds, i)
    && (marks[i].queue == Candidates ==> ds[i] == Decide(cfg, s, i))
    && after[i] == Made(cfg, marks, ds, |cfg|, i)
  }

  lemma {:induction false} FittingCycle(cfg: PlanConf, s: Plan, phase: Phase, values: map<(nat, CondIdx), Tri>,
                                        v: map<(nat, CondIdx), Tri>, holder: Option<nat>,
                                        marks: seq<Mark>, ds: seq<Decision>, after: seq<Mark>) returns (t: Plan)
    requires Simple(cfg) && |cfg| == |marks| == |ds| == |after|
    requires Reachable(cfg, s) && Sized(cfg, s) && At(s, phase, values, holder, marks)
    requires phase == Idle || phase == Committing
    requires forall i | 0 <= i < |cfg| :: Fits(cfg, Seeing(s, v), holder, marks, ds, after, i)
    ensures Reachable(cfg, t) && Sized(cfg, t) && At(t, Committing, v, holder, after)
    ensures t.snap == StatesOf(s)
  {
    forall i | 0 <= i < |cfg|
      ensures Plain(cfg, holder, marks, ds, i)
      ensures marks[i].queue == Candidates ==> ds[i] == Decide(cfg, Seeing(s, v), i)
      ensures after[i] == Made(cfg, marks, ds, |cfg|, i)
    {
      assert Fits(cfg, Seeing(s, v), holder, marks, ds, after, i);
    }
    t := Cycle(cfg, s, phase, values, v, holder, marks, ds, after);
  }

  lemma {:induction false} Cycle2(cfg: PlanConf, s: Plan, phase: Phase, values: map<(nat, CondIdx), Tri>,
                                  v: map<(nat, CondIdx), Tri>, holder: Option<nat>,
                                  marks: seq<Mark>, ds: seq<Decision>, after: seq<Mark>) returns (t: Plan)
    requires Simple(cfg) && |cfg| == 2 == |marks| == |ds| == |after|
    requires Reachable(cfg, s) && Sized(cfg, s) && At(s, phase, values, holder, marks)
    requires phase == Idle || phase == Committing
    requires Fits(cfg, Seeing(s, v), holder, marks, ds, after, 0)
    requires Fits(cfg, Seeing(s, v), holder, marks, ds, after, 1)
    ensures Reachable(cfg, t) && Sized(cfg, t) && At(t, Committing, v, holder, after)
    ensures t.snap == StatesOf(s)
  {
    t := FittingCycle(cfg, s, phase, values, v, holder, marks, ds, after);
  }

  lemma {:induction false} Cycle3(cfg: PlanConf, s: Plan, phase: Phase, values: map<(nat, CondIdx), Tri>,
                                  v: map<(nat, CondIdx), Tri>, holder: Option<nat>,
                                  marks: seq<Mark>, ds: seq<Decision>, after: seq<Mark>) returns (t: Plan)
    requires Simple(cfg) && |cfg| == 3 == |marks| == |ds| == |after|
    requires Reachable(cfg, s) && Sized(cfg, s) && At(s, phase, values, holder, marks)
    requires phase == Idle || phase == Committing
    requires Fits(cfg, Seeing(s, v), holder, marks, ds, after, 0)
    requires Fits(cfg, Seeing(s, v), holder, marks, ds, after, 1)
    requires Fits(cfg, Seeing(s, v), holder, marks, ds, after, 2)
    ensures Reachable(cfg, t) && Sized(cfg, t) && At(t, Committing, v, holder, after)
    ensures t.snap == StatesOf(s)
  {
    t := FittingCycle(cfg, s, phase, values, v, holder, marks, ds, after);
  }

  lemma {:induction false} Cycle4(cfg: PlanConf, s: Plan, phase: Phase, values: map<(nat, CondIdx), Tri>,
                                  v: map<(nat, CondIdx), Tri>, holder: Option<nat>,
                                  marks: seq<Mark>, ds: seq<Decision>, after: seq<Mark>) returns (t: Plan)
    requires Simple(cfg) && |cfg| == 4 == |marks| == |ds| == |after|
    requires Reachable(cfg, s) && Sized(cfg, s) && At(s, phase, values, holder, marks)
    requires phase == Idle || phase == Committing
    requires Fits(cfg, Seeing(s, v), holder, marks, ds, after, 0)
    requires Fits(cfg, Seeing(s, v), holder, marks, ds, after, 1)
    requires Fits(cfg, Seeing(s, v), holder, marks, ds, after, 2)
    requires Fits(cfg, Seeing(s, v), holder, marks, ds, after, 3)
    ensures Reachable(cfg, t) && Sized(cfg, t) && At(t, Committing, v, holder, after)
    ensures t.snap == StatesOf(s)
  {
    t := FittingCycle(cfg, s, phase, values, v, holder, marks, ds, after);
  }

  const ADDED := Mark(Inactive, QueueCheck, Candidates, None)
  const ASLEEP := Mark(Inactive, QueueNone, NoQueue, None)
  const READY := Mark(Waiting, QueueCheck, Candidates, None)
  const TRYING := Mark(Waiting, QueuePendingTry, PendingQueue, Some(Executing))
  const GRANTED := Mark(Waiting, QueueTransition, StateChange, Some(Executing))
  const PENDING := Mark(Waiting, QueuePending, PendingQueue, Some(Executing))
  const RUNNING := Mark(Executing, QueueCheck, Candidates, None)
  const ENDING := Mark(Executing, QueueTransition, StateChange, Some(IterationEnded))

  // ----- three roots that need the same mutex -----

  function Contenders(): (cfg: PlanConf)
    ensures Simple(cfg) && |cfg| == 3
    ensures forall i | 0 <= i < 3 :: cfg[i].kind == Empty && cfg[i].parent == None && cfg[i].mutexes == [0]
    ensures cfg[0].user == {} && cfg[1].user == cfg[2].user == {Start}
    ensures forall i: nat :: Priorities(cfg)(i) == 0
  {
    var cfg := [NodeConf(Empty, None, {}, [0], 0, 0), NodeConf(Empty, None, {Start}, [0], 0, 0),
                NodeConf(Empty, None, {Start}, [0], 0, 0)];
    assert NodeWellFormed(cfg, 0) && NodeWellFormed(cfg, 1) && NodeWellFormed(cfg, 2);
    cfg
  }

  /** The second node's Start has the value v; the third's is true. */
  function StartIs(v: Tri): map<(nat, CondIdx), Tri> {
    map[(1, Start) := v, (2, Start) := True]
  }

  /** What the nodes can read: nothing, and a Start condition. */
  lemma {:induction false} ContendersRead(cfg: PlanConf, w: World, i: nat, k: CondIdx)
    requires cfg == Contenders() && i < 3
    ensures Env(cfg, w, i)(k) == if i != 0 && k == Start then Some(UserValue(w, i, Start)) else None
  {
    if k !in {AncestorExit, AncestorInvariant, AncestorEnd} {
      UnwrappedSlot(cfg, i, k);
      assert OwnSlots(cfg[i], i)(k) == if i != 0 && k == Start then Some(User(i, Start)) else None;
    } else {
      assert Readable(cfg, i)(k) == None;
    }
  }

  /** What the contenders decide to do in each state. */
  function Choice(i: nat, state: NodeState, start: Tri): Decision {
    match state
    case Inactive => WAIT
    case Waiting => if i != 1 || start == True then EXECUTE else Stay
    case Executing => SUCCEED
    case _ => Go(Finished, NoOutcome, NoFailure)
  }

  lemma {:induction false} Decides(cfg: PlanConf, s: Plan, i: nat, start: Tri)
    requires cfg == Contenders() && |s.nodes| == 3 && i < 3 && s.values == StartIs(start)
    requires s.nodes[i].state in {Inactive, Waiting, Executing, IterationEnded}
    ensures Decide(cfg, s, i) == Choice(i, s.nodes[i].state, start)
  {
    var w := WorldOf(s);
    assert UserValue(w, 1, Start) == start && UserValue(w, 2, Start) == True;
    forall k: CondIdx
      ensures Env(cfg, w, i)(k) == if i != 0 && k == Start then Some(if i == 1 then start else True) else None
    {
      ContendersRead(cfg, w, i, k);
    }
    ContenderDest(s.nodes[i].state, s.nodes[i].failure, Env(cfg, w, i), i, start);
  }

  lemma ContenderDest(state: NodeState, f: FailureType, c: Conds, i: nat, start: Tri)
    requires state in {Inactive, Waiting, Executing, IterationEnded}
    requires forall k: CondIdx :: c(k) == if i != 0 && k == Start then Some(if i == 1 then start else True) else None
    ensures Dest(Empty, state, f, None, c) == Choice(i, state, start)
  {
  }

  /** All are waiting and eligible to be checked. */
  lemma {:induction false} AllWaiting(cfg: PlanConf) returns (s: Plan)
    requires cfg == Contenders()
    ensures Reachable(cfg, s) && Sized(cfg, s) && s.pend.queue == []
    ensures At(s, Committing, StartIs(True), None, [READY, READY, READY])
  {
    var v := StartIs(True);
    s := Initial(cfg, map[]);
    assert IsRun(cfg, Initial(cfg, map[]), [], s);
    s := AllBegin(cfg, s);
    NobodyPending(cfg, s, Committing, v, None, [READY, READY, READY]);
  }

  lemma {:induction false} AllBegin(cfg: PlanConf, s: Plan) returns (t: Plan)
    requires cfg == Contenders() && Reachable(cfg, s) && s == Initial(cfg, map[])
    ensures Reachable(cfg, t) && Sized(cfg, t) && At(t, Committing, StartIs(True), None, [READY, READY, READY])
  {
    var v := StartIs(True);
    Decides(cfg, Seeing(s, v), 0, True);
    Decides(cfg, Seeing(s, v), 1, True);
    Decides(cfg, Seeing(s, v), 2, True);
    t := Cycle3(cfg, s, Idle, map[], v, None, [ADDED, ADDED, ADDED], [WAIT, WAIT, WAIT], [READY, READY, READY]);
  }

  lemma {:induction false} AllTrying(cfg: PlanConf, s: Plan) returns (t: Plan)
    requires cfg == Contenders() && Reachable(cfg, s) && Sized(cfg, s) && s.pend.queue == []
    requires At(s, Committing, StartIs(True), None, [READY, READY, READY])
    ensures Reachable(cfg, t) && Sized(cfg, t) && t.pend.queue == t.pend.walk == [0, 1, 2] && t.pend.turns == []
    ensures At(t, Resolving, StartIs(True), None, [TRYING, TRYING, TRYING])
  {
    t := FirstTries(cfg, s);
    t := OthersTry(cfg, t);
    t := ToResolving(cfg, t, StartIs(True), None, [TRYING, TRYING, TRYING]);
  }

  lemma {:induction false} OthersTry(cfg: PlanConf, s: Plan) returns (t: Plan)
    requires cfg == Contenders() && Reachable(cfg, s) && Sized(cfg, s) && s.pend.queue == [0]
    requires At(s, Checking, StartIs(True), None, [TRYING, READY, READY])
    ensures Reachable(cfg, t) && Sized(cfg, t) && t.pend.queue == [0, 1, 2]
    ensures At(t, Checking, StartIs(True), None, [TRYING, TRYING, TRYING])
  {
    InLine(cfg);
    t := AnotherTries(cfg, s, 1, [TRYING, READY, READY], [TRYING, TRYING, READY]);
    t := AnotherTries(cfg, t, 2, [TRYING, TRYING, READY], [TRYING, TRYING, TRYING]);
  }

  lemma {:induction false} FirstTries(cfg: PlanConf, s: Plan) returns (t: Plan)
    requires cfg == Contenders() && Reachable(cfg, s) && Sized(cfg, s) && s.pend.queue == []
    requires At(s, Committing, StartIs(True), None, [READY, READY, READY])
    ensures Reachable(cfg, t) && Sized(cfg, t) && At(t, Checking, StartIs(True), None, [TRYING, READY, READY])
    ensures t.pend.queue == [0]
  {
    InLine(cfg);
    t := ToChecking(cfg, s, StartIs(True), StartIs(True), None, [READY, READY, READY]);
    t := AnotherTries(cfg, t, 0, [READY, READY, READY], [TRYING, READY, READY]);
  }

  lemma {:induction false} AnotherTries(cfg: PlanConf, s: Plan, i: nat, marks: seq<Mark>, after: seq<Mark>)
      returns (t: Plan)
    requires cfg == Contenders() && Reachable(cfg, s) && Sized(cfg, s) && i < 3
    requires At(s, Checking, StartIs(True), None, marks) && marks[i] == READY && after == marks[i := TRYING]
    ensures Reachable(cfg, t) && Sized(cfg, t) && At(t, Checking, StartIs(True), None, after)
    ensures t.pend.queue == Inserted(s.pend.queue, i, Priorities(cfg))
  {
    Decides(cfg, s, i, True);
    t := Evaluate(cfg, s, i, EXECUTE, StartIs(True), None, marks, after);
  }

  lemma {:induction false} InLine(cfg: PlanConf)
    requires cfg == Contenders()
    ensures Inserted<nat>([], 0, Priorities(cfg)) == [0] && Inserted<nat>([0], 1, Priorities(cfg)) == [0, 1]
    ensures Inserted<nat>([0, 1], 2, Priorities(cfg)) == [0, 1, 2]
  {
    assert [0][1..] == [] && [0, 1][1..] == [1] && [1][1..] == [];
  }

  /** Nobody in the walk leaves: all in it have turns, and in its order if all may try, or none. */
  lemma {:induction false} WholeWalk(cfg: PlanConf, s: Plan, walk: seq<nat>, may: bool)
    requires cfg == Contenders() && forall i | i in walk :: !Leaves(cfg, s, i) && MayTry(cfg, s, i) == may
    ensures Looked(walk, Leaving(cfg, s), Priorities(cfg)) == walk && Left(walk, Leaving(cfg, s), Priorities(cfg)) == []
    ensures Those(walk, Trying(cfg, s, may)) == walk && Those(walk, Trying(cfg, s, !may)) == []
  {
    if walk != [] {
      WholeWalk(cfg, s, walk[1..], may);
      assert walk == [walk[0]] + walk[1..];
    }
  }

  lemma {:induction false} WholeBatch(cfg: PlanConf, s: Plan, may: bool)
    requires cfg == Contenders() && forall i | i in s.pend.walk :: !Leaves(cfg, s, i) && MayTry(cfg, s, i) == may
    ensures Batched(cfg, s) == s.pend.(turns := s.pend.walk, walk := [])
  {
    WholeWalk(cfg, s, s.pend.walk, may);
    assert [] + s.pend.walk == s.pend.walk && s.pend.walk + [] == s.pend.walk;
  }

  /** The first has been granted the mutex, and has started; the others are pending. */
  lemma {:induction false} OneRuns(cfg: PlanConf) returns (s: Plan)
    requires cfg == Contenders()
    ensures Reachable(cfg, s) && Sized(cfg, s) && s.pend.queue == [1, 2]
    ensures At(s, Committing, StartIs(True), Some(0), [RUNNING, PENDING, PENDING])
  {
    s := AllWaiting(cfg);
    s := AllTrying(cfg, s);
    s := AllTry(cfg, s);
    s := FirstStarts(cfg, s);
  }

  lemma {:induction false} FirstStarts(cfg: PlanConf, s: Plan) returns (t: Plan)
    requires cfg == Contenders() && Reachable(cfg, s) && Sized(cfg, s)
    requires s.pend.queue == [1, 2] && s.pend.walk == s.pend.turns == []
    requires At(s, Resolving, StartIs(True), Some(0), [GRANTED, PENDING, PENDING])
    ensures Reachable(cfg, t) && Sized(cfg, t) && t.pend.queue == [1, 2]
    ensures At(t, Committing, StartIs(True), Some(0), [RUNNING, PENDING, PENDING])
  {
    t := ToCommitting(cfg, s, StartIs(True), Some(0), [GRANTED, PENDING, PENDING]);
    t := FirstMoves(cfg, t);
  }

  lemma {:induction false} FirstMoves(cfg: PlanConf, s: Plan) returns (t: Plan)
    requires cfg == Contenders() && Reachable(cfg, s) && Sized(cfg, s) && s.pend.queue == [1, 2]
    requires At(s, Committing, StartIs(True), Some(0), [GRANTED, PENDING, PENDING])
    ensures Reachable(cfg, t) && Sized(cfg, t) && t.pend.queue == [1, 2]
    ensures At(t, Committing, StartIs(True), Some(0), [RUNNING, PENDING, PENDING])
  {
    var marks, after := [GRANTED, PENDING, PENDING], [RUNNING, PENDING, PENDING];
    assert after == AfterMove(cfg, 0, marks);
    t := Move(cfg, s, 0, StartIs(True), Some(0), marks, after);
  }

  lemma {:induction false} AllTry(cfg: PlanConf, s: Plan) returns (t: Plan)
    requires cfg == Contenders() && Reachable(cfg, s) && Sized(cfg, s)
    requires s.pend.queue == s.pend.walk == [0, 1, 2] && s.pend.turns == []
    requires At(s, Resolving, StartIs(True), None, [TRYING, TRYING, TRYING])
    ensures Reachable(cfg, t) && Sized(cfg, t) && t.pend.queue == [1, 2] && t.pend.walk == t.pend.turns == []
    ensures At(t, Resolving, StartIs(True), Some(0), [GRANTED, PENDING, PENDING])
  {
    t := FirstGranted(cfg, s);
    t := NextRefused(cfg, t, 1, [GRANTED, TRYING, TRYING], [GRANTED, PENDING, TRYING]);
    t := NextRefused(cfg, t, 2, [GRANTED, PENDING, TRYING], [GRANTED, PENDING, PENDING]);
  }

  lemma {:induction false} FirstGranted(cfg: PlanConf, s: Plan) returns (t: Plan)
    requires cfg == Contenders() && Reachable(cfg, s) && Sized(cfg, s)
    requires s.pend.queue == s.pend.walk == [0, 1, 2] && s.pend.turns == []
    requires At(s, Resolving, StartIs(True), None, [TRYING, TRYING, TRYING])
    ensures Reachable(cfg, t) && Sized(cfg, t) && t.pend.queue == [1, 2] == t.pend.turns && t.pend.walk == []
    ensures At(t, Resolving, StartIs(True), Some(0), [GRANTED, TRYING, TRYING])
  {
    WholeBatch(cfg, s, true);
    t := Batch(cfg, s, StartIs(True), None, [TRYING, TRYING, TRYING], [0, 1, 2]);
    t := FirstTurn(cfg, t);
  }

  lemma {:induction false} FirstTurn(cfg: PlanConf, s: Plan) returns (t: Plan)
    requires cfg == Contenders() && Reachable(cfg, s) && Sized(cfg, s)
    requires s.pend.queue == s.pend.turns == [0, 1, 2] && s.pend.walk == []
    requires At(s, Resolving, StartIs(True), None, [TRYING, TRYING, TRYING])
    ensures Reachable(cfg, t) && Sized(cfg, t) && t.pend.queue == [1, 2] == t.pend.turns && t.pend.walk == []
    ensures At(t, Resolving, StartIs(True), Some(0), [GRANTED, TRYING, TRYING])
  {
    t := GrantedTurn(cfg, s, 0, StartIs(True), [TRYING, TRYING, TRYING]);
    assert [TRYING, TRYING, TRYING][0 := GRANTED] == [GRANTED, TRYING, TRYING];
  }

  lemma {:induction false} NextRefused(cfg: PlanConf, s: Plan, i: nat, marks: seq<Mark>, after: seq<Mark>)
      returns (t: Plan)
    requires cfg == Contenders() && Reachable(cfg, s) && Sized(cfg, s) && 0 < i < 3
    requires s.pend.turns != [] && s.pend.turns[0] == i && s.pend.walk == []
    requires At(s, Resolving, StartIs(True), Some(0), marks) && marks[i] == TRYING && after == marks[i := PENDING]
    ensures Reachable(cfg, t) && Sized(cfg, t) && t.pend.queue == s.pend.queue && t.pend.walk == []
    ensures t.pend.turns == s.pend.turns[1..] && At(t, Resolving, StartIs(True), Some(0), after)
  {
    t := RefusedTurn(cfg, s, i, StartIs(True), 0, marks);
  }

  /** The executing node decides to end its iteration. */
  lemma {:induction false} FirstIsEnding(cfg: PlanConf, s: Plan, start: Tri, b: Mark) returns (t: Plan)
    requires cfg == Contenders() && Reachable(cfg, s) && Sized(cfg, s) && s.pend.queue == [1, 2]
    requires At(s, Checking, StartIs(start), Some(0), [RUNNING, b, PENDING]) && b.queue == PendingQueue
    ensures Reachable(cfg, t) && Sized(cfg, t) && t.pend.queue == t.pend.walk == [1, 2] && t.pend.turns == []
    ensures At(t, Resolving, StartIs(start), Some(0), [ENDING, b, PENDING])
  {
    t := FirstIsToEnd(cfg, s, start, b);
    t := ToResolving(cfg, t, StartIs(start), Some(0), [ENDING, b, PENDING]);
  }

  lemma {:induction false} FirstIsToEnd(cfg: PlanConf, s: Plan, start: Tri, b: Mark) returns (t: Plan)
    requires cfg == Contenders() && Reachable(cfg, s) && Sized(cfg, s)
    requires At(s, Checking, StartIs(start), Some(0), [RUNNING, b, PENDING]) && b.queue == PendingQueue
    ensures Reachable(cfg, t) && Sized(cfg, t) && t.pend == s.pend
    ensures At(t, Checking, StartIs(start), Some(0), [ENDING, b, PENDING])
  {
    Decides(cfg, s, 0, start);
    t := Evaluate(cfg, s, 0, SUCCEED, StartIs(start), Some(0), [RUNNING, b, PENDING], [ENDING, b, PENDING]);
  }

  /** The second node is looked at, with its Start false, and the walk is over. */
  lemma {:induction false} WalkIsCut(cfg: PlanConf, s: Plan, holder: Option<nat>, marks: seq<Mark>) returns (t: Plan)
    requires cfg == Contenders() && Reachable(cfg, s) && Sized(cfg, s)
    requires At(s, Resolving, StartIs(False), holder, marks)
    requires |marks| == 3 && marks[1].state == Waiting && marks[1].status in {QueuePendingCheck, QueuePendingTryCheck}
    requires s.pend.queue == s.pend.walk == [1, 2] && s.pend.turns == []
    ensures Reachable(cfg, t) && Sized(cfg, t) && At(t, Resolving, StartIs(False), holder, marks)
    ensures t.pend.queue == [1, 2] && t.pend.turns == [1] && t.pend.walk == []
  {
    Decides(cfg, s, 1, False);
    CutBatch(cfg, s);
    t := Batch(cfg, s, StartIs(False), holder, marks, [1]);
  }

  lemma {:induction false} CutBatch(cfg: PlanConf, s: Plan)
    requires s.pend.walk == [1, 2] && Leaves(cfg, s, 1)
    ensures Batched(cfg, s) == s.pend.(turns := [1], walk := [])
  {
    assert Looked(s.pend.walk, Leaving(cfg, s), Priorities(cfg)) == [1];
    SplitOne(1, Trying(cfg, s, false), Trying(cfg, s, true));
  }

  /** A reachable state with a node that no run will ever check again: its Start condition
      turned false while it was pending on a busy mutex. */
  lemma {:induction false} AWaitingNodeGetsLost(cfg: PlanConf) returns (s: Plan)
    requires cfg == Contenders()
    ensures Reachable(cfg, s) && Sized(cfg, s)
    ensures Stuck(s.nodes[1]) && s.nodes[1].state == Waiting
  {
    var changed := PENDING.(status := QueuePendingCheck);
    s := ChangedWhilePending(cfg);
    s := WalkIsCut(cfg, s, Some(0), [ENDING, changed, PENDING]);
    Decides(cfg, s, 1, False);
    s := Turn(cfg, s, 1, StartIs(False), Some(0), [ENDING, changed, PENDING],
              Mark(Waiting, QueuePending, NoQueue, None));
  }

  /** The pending node is notified, and its Start condition is no longer true. */
  lemma {:induction false} ChangedWhilePending(cfg: PlanConf) returns (s: Plan)
    requires cfg == Contenders()
    ensures Reachable(cfg, s) && Sized(cfg, s) && s.pend.queue == s.pend.walk == [1, 2] && s.pend.turns == []
    ensures At(s, Resolving, StartIs(False), Some(0), [ENDING, PENDING.(status := QueuePendingCheck), PENDING])
  {
    var marks := [RUNNING, PENDING.(status := QueuePendingCheck), PENDING];
    s := OneRuns(cfg);
    s := Advance(cfg, s, Notify(1), Committing, StartIs(True), Some(0), marks);
    s := ToChecking(cfg, s, StartIs(False), StartIs(True), Some(0), marks);
    s := FirstIsEnding(cfg, s, False, marks[1]);
  }

  /** The first node has ended its iteration, and the others have been told of the mutex. */
  lemma {:induction false} MutexIsFree(cfg: PlanConf) returns (s: Plan)
    requires cfg == Contenders()
    ensures Reachable(cfg, s) && Sized(cfg, s) && s.pend.queue == [1, 2]
    ensures At(s, Committing, StartIs(True), None, [ENDED, TRYING, TRYING])
  {
    var v := StartIs(True);
    s := OneRuns(cfg);
    s := ToChecking(cfg, s, v, v, Some(0), [RUNNING, PENDING, PENDING]);
    s := FirstIsEnding(cfg, s, True, PENDING);
    s := TurnsInVain(cfg, s);
    s := ToCommitting(cfg, s, v, Some(0), [ENDING, PENDING, PENDING]);
    s := FirstEnds(cfg, s);
    s := BothAreTold(cfg, s);
  }

  lemma {:induction false} TurnsInVain(cfg: PlanConf, s: Plan) returns (t: Plan)
    requires cfg == Contenders() && Reachable(cfg, s) && Sized(cfg, s)
    requires s.pend.queue == s.pend.walk == [1, 2] && s.pend.turns == []
    requires At(s, Resolving, StartIs(True), Some(0), [ENDING, PENDING, PENDING])
    ensures Reachable(cfg, t) && Sized(cfg, t) && t.pend.queue == [1, 2] && t.pend.walk == t.pend.turns == []
    ensures At(t, Resolving, StartIs(True), Some(0), [ENDING, PENDING, PENDING])
  {
    var v, marks := StartIs(True), [ENDING, PENDING, PENDING];
    WholeBatch(cfg, s, false);
    t := Batch(cfg, s, v, Some(0), marks, [1, 2]);
    assert [1, 2][1..] == [2] && [2][1..] == [];
    t := IdleTurn(cfg, t, 1, v, 0, marks);
    t := IdleTurn(cfg, t, 2, v, 0, marks);
  }

  /** The state right after the move: the two waiters are still to be told. */
  lemma {:induction false} FirstEnds(cfg: PlanConf, s: Plan) returns (t: Plan)
    requires cfg == Contenders() && Reachable(cfg, s) && Sized(cfg, s) && s.pend.queue == [1, 2]
    requires At(s, Committing, StartIs(True), Some(0), [ENDING, PENDING, PENDING])
    ensures Reachable(cfg, t) && Sized(cfg, t) && t.pend.queue == [1, 2] && t.pend.toTell == {1, 2}
    ensures At(t.(pend := s.pend), Committing, StartIs(True), None, [ENDED, PENDING, PENDING])
  {
    var marks, after := [ENDING, PENDING, PENDING], [ENDED, PENDING, PENDING];
    BothWait(cfg, s);
    assert after == AfterMove(cfg, 0, marks);
    t := MoveAnnouncing(cfg, s, 0, StartIs(True), Some(0), marks, after);
  }

  lemma {:induction false} BothWait(cfg: PlanConf, s: Plan)
    requires cfg == Contenders() && Reachable(cfg, s) && Sized(cfg, s)
    requires s.pend.queue == [1, 2] && s.holders(0) == Some(0)
    requires Is(s.nodes[1], PENDING) && Is(s.nodes[2], PENDING)
    ensures Announced(cfg, s, 0, Executing, IterationEnded).toTell == {1, 2}
  {
    ReachableWait(cfg, s);
    assert RefusalOk(cfg, s, 1) && RefusalOk(cfg, s, 2);
    assert s.pend.waiters == {1, 2};
    BothUse(cfg, Returned(cfg[0], 0, Executing, IterationEnded, s.holders));
  }

  lemma ReachableWait(cfg: PlanConf, s: Plan)
    requires WellFormed(cfg) && Reachable(cfg, s)
    ensures Sized(cfg, s) && WaitInv(cfg, s)
  {
    ReachableAll(cfg, s);
  }

  lemma BothUse(cfg: PlanConf, given: nat -> bool)
    requires cfg == Contenders() && given(0)
    ensures WaitersOn(cfg, {1, 2}, given, None) == {1, 2}
  {
    assert cfg[1].mutexes[0] == 0 && cfg[2].mutexes[0] == 0;
    assert 0 in cfg[1].mutexes && 0 in cfg[2].mutexes;
  }

  lemma {:induction false} BothAreTold(cfg: PlanConf, s: Plan) returns (t: Plan)
    requires cfg == Contenders() && Reachable(cfg, s) && Sized(cfg, s)
    requires s.pend.queue == [1, 2] && s.pend.toTell == {1, 2}
    requires At(s.(pend := s.pend.(toTell := {})), Committing, StartIs(True), None, [ENDED, PENDING, PENDING])
    ensures Reachable(cfg, t) && Sized(cfg, t) && t.pend.queue == [1, 2]
    ensures At(t, Committing, StartIs(True), None, [ENDED, TRYING, TRYING])
  {
    t := ReachStep(cfg, s, ResourceFreed(1));
    t := ReachStep(cfg, t, ResourceFreed(2));
  }

  /** A reachable state in which one more notification of a node is an error: the mutex it
      is pending on was released, and one of its conditions changed after that. */
  lemma {:induction false} ANotificationIsRejected(cfg: PlanConf) returns (s: Plan)
    requires cfg == Contenders()
    ensures Reachable(cfg, s) && Sized(cfg, s) && s.pend.queue == [1, 2] && s.pend.toTell == {}
    ensures s.nodes[1].state == Waiting && s.nodes[1].queue == PendingQueue && s.holders(0) == None
    ensures !Enabled(cfg, s, Notify(1))
    ensures At(s, Committing, StartIs(True), None, [ENDED, TOLD, TRYING])
  {
    s := MutexIsFree(cfg);
    s := Advance(cfg, s, Notify(1), Committing, StartIs(True), None,
                 [ENDED, TOLD, TRYING]);
  }

  /** A reachable state at the end of a macro step in which a node has been told that its mutex is
      free, the mutex is free, and nothing asks for another step: when the node before it in the
      pending queue was looked at, that one left the queue, and the walk was over. */
  lemma {:induction false} ATurnIsDenied(cfg: PlanConf) returns (s: Plan)
    requires cfg == Contenders()
    ensures Reachable(cfg, s) && Sized(cfg, s) && s.phase == Idle && NoneIn(s, Candidates) && s.pend.toTell == {}
    ensures s.nodes[2].queue == PendingQueue && s.nodes[2].status == QueuePendingTry && CanAcquire(cfg[2], s)
  {
    s := ANotificationIsRejected(cfg);
    s := FirstIsFinishing(cfg, s);
    s := OnlySecondHasATurn(cfg, s);
    s := FirstFinishes(cfg, s);
    s := StepEnds(cfg, s);
    assert cfg[2].mutexes == [0];
  }

  const TOLD := Mark(Waiting, QueuePendingTryCheck, PendingQueue, Some(Executing))
  const LEAVING := Mark(IterationEnded, QueueTransition, StateChange, Some(Finished))
  const GONE := Mark(Finished, QueueDelete, FinishedRoots, None)

  lemma {:induction false} OnlySecondHasATurn(cfg: PlanConf, s: Plan) returns (t: Plan)
    requires cfg == Contenders() && Reachable(cfg, s) && Sized(cfg, s)
    requires s.pend.queue == s.pend.walk == [1, 2] && s.pend.turns == []
    requires At(s, Resolving, StartIs(False), None, [LEAVING, TOLD, TRYING])
    ensures Reachable(cfg, t) && Sized(cfg, t) && t.pend.turns == t.pend.walk == []
    ensures At(t, Resolving, StartIs(False), None, [LEAVING, WAITING_IDLE, TRYING])
  {
    t := WalkIsCut(cfg, s, None, [LEAVING, TOLD, TRYING]);
    t := SecondLeaves(cfg, t);
  }

  lemma {:induction false} SecondLeaves(cfg: PlanConf, s: Plan) returns (t: Plan)
    requires cfg == Contenders() && Reachable(cfg, s) && Sized(cfg, s) && s.pend.turns == [1] && s.pend.walk == []
    requires At(s, Resolving, StartIs(False), None, [LEAVING, TOLD, TRYING])
    ensures Reachable(cfg, t) && Sized(cfg, t) && t.pend.turns == t.pend.walk == []
    ensures At(t, Resolving, StartIs(False), None, [LEAVING, WAITING_IDLE, TRYING])
  {
    SecondGivesUp(cfg, s);
    assert [1][1..] == [] && [LEAVING, TOLD, TRYING][1 := WAITING_IDLE] == [LEAVING, WAITING_IDLE, TRYING];
    t := Turn(cfg, s, 1, StartIs(False), None, [LEAVING, TOLD, TRYING], WAITING_IDLE);
  }

  lemma {:induction false} SecondGivesUp(cfg: PlanConf, s: Plan)
    requires cfg == Contenders() && Sized(cfg, s)
    requires At(s, Resolving, StartIs(False), None, [LEAVING, TOLD, TRYING])
    ensures TurnGives(cfg, s, 1, WAITING_IDLE) && !MayTry(cfg, s, 1)
  {
    Decides(cfg, s, 1, False);
  }

  lemma {:induction false} FirstIsFinishing(cfg: PlanConf, s: Plan) returns (t: Plan)
    requires cfg == Contenders() && Reachable(cfg, s) && Sized(cfg, s) && s.pend.queue == [1, 2]
    requires At(s, Committing, StartIs(True), None, [ENDED, TOLD, TRYING])
    ensures Reachable(cfg, t) && Sized(cfg, t) && t.pend.queue == t.pend.walk == [1, 2] && t.pend.turns == []
    ensures At(t, Resolving, StartIs(False), None, [LEAVING, TOLD, TRYING])
  {
    t := ToChecking(cfg, s, StartIs(False), StartIs(True), None, [ENDED, TOLD, TRYING]);
    t := FirstIsToFinish(cfg, t);
    t := ToResolving(cfg, t, StartIs(False), None, [LEAVING, TOLD, TRYING]);
  }

  lemma {:induction false} FirstIsToFinish(cfg: PlanConf, s: Plan) returns (t: Plan)
    requires cfg == Contenders() && Reachable(cfg, s) && Sized(cfg, s)
    requires At(s, Checking, StartIs(False), None, [ENDED, TOLD, TRYING])
    ensures Reachable(cfg, t) && Sized(cfg, t) && t.pend == s.pend
    ensures At(t, Checking, StartIs(False), None, [LEAVING, TOLD, TRYING])
  {
    Decides(cfg, s, 0, False);
    t := Evaluate(cfg, s, 0, Go(Finished, NoOutcome, NoFailure), StartIs(False), None, [ENDED, TOLD, TRYING],
                  [LEAVING, TOLD, TRYING]);
  }

  lemma {:induction false} FirstFinishes(cfg: PlanConf, s: Plan) returns (t: Plan)
    requires cfg == Contenders() && Reachable(cfg, s) && Sized(cfg, s) && s.pend.turns == s.pend.walk == []
    requires At(s, Resolving, StartIs(False), None, [LEAVING, WAITING_IDLE, TRYING])
    ensures Reachable(cfg, t) && Sized(cfg, t)
    ensures At(t, Committing, StartIs(False), None, [GONE, WAITING_IDLE, TRYING])
  {
    t := ToCommitting(cfg, s, StartIs(False), None, [LEAVING, WAITING_IDLE, TRYING]);
    t := FirstLeaves(cfg, t);
  }

  lemma {:induction false} FirstLeaves(cfg: PlanConf, s: Plan) returns (t: Plan)
    requires cfg == Contenders() && Reachable(cfg, s) && Sized(cfg, s)
    requires At(s, Committing, StartIs(False), None, [LEAVING, WAITING_IDLE, TRYING])
    ensures Reachable(cfg, t) && Sized(cfg, t)
    ensures At(t, Committing, StartIs(False), None, [GONE, WAITING_IDLE, TRYING])
  {
    var marks, after := [LEAVING, WAITING_IDLE, TRYING], [GONE, WAITING_IDLE, TRYING];
    assert after == AfterMove(cfg, 0, marks);
    t := Move(cfg, s, 0, StartIs(False), None, marks, after);
  }

  lemma {:induction false} StepEnds(cfg: PlanConf, s: Plan) returns (t: Plan)
    requires cfg == Contenders() && Reachable(cfg, s) && Sized(cfg, s)
    requires At(s, Committing, StartIs(False), None, [GONE, WAITING_IDLE, TRYING])
    ensures Reachable(cfg, t) && Sized(cfg, t) && At(t, Idle, StartIs(False), None, [GONE, WAITING_IDLE, TRYING])
  {
    t := Advance(cfg, s, EndLoop, Effects, StartIs(False), None, [GONE, WAITING_IDLE, TRYING]);
    t := Advance(cfg, t, EndEffects, Idle, StartIs(False), None, [GONE, WAITING_IDLE, TRYING]);
  }

  // ----- a list whose child uses a mutex -----

  function Family(): (cfg: PlanConf)
    ensures Simple(cfg) && |cfg| == 2
    ensures cfg[0] == NodeConf(List, None, {Exit}, [], 0, 0) && cfg[1] == NodeConf(Empty, Some(0), {End}, [0], 0, 0)
  {
    var cfg := [NodeConf(List, None, {Exit}, [], 0, 0), NodeConf(Empty, Some(0), {End}, [0], 0, 0)];
    assert NodeWellFormed(cfg, 0) && NodeWellFormed(cfg, 1);
    cfg
  }

  function ExitIs(v: Tri): map<(nat, CondIdx), Tri> {
    map[(0, Exit) := v, (1, End) := False]
  }

  /** What the child can read: its own End, and the list's Exit. */
  lemma {:induction false} ChildReads(cfg: PlanConf, w: World, k: CondIdx, exit: Tri)
    requires cfg == Family() && w.values == ExitIs(exit)
    ensures Env(cfg, w, 1)(k) == if k == AncestorExit then Some(exit) else if k == End then Some(False) else None
  {
    if k in {AncestorExit, AncestorInvariant, AncestorEnd} {
      InheritedValue(cfg, w, 1, k);
      assert Readable(cfg, 0)(k) == None;
    } else {
      UnwrappedSlot(cfg, 1, k);
      assert OwnSlots(cfg[1], 1)(k) == if k == End then Some(User(1, End)) else None;
    }
  }

  lemma {:induction false} ChildDecides(cfg: PlanConf, s: Plan, exit: Tri)
    requires cfg == Family() && |s.nodes| == 2 && s.values == ExitIs(exit)
    ensures s.nodes[1].state == Inactive && s.nodes[0].state == Executing && exit == False ==>
      Decide(cfg, s, 1) == Go(Waiting, NoOutcome, NoFailure)
    ensures s.nodes[1].state == Waiting && exit == False ==> Decide(cfg, s, 1) == Go(Executing, NoOutcome, NoFailure)
    ensures s.nodes[1].state == Executing && exit == True ==>
      Decide(cfg, s, 1) == Go(Finished, Interrupted, ParentExited)
  {
    forall k: CondIdx
      ensures Env(cfg, WorldOf(s), 1)(k) ==
        if k == AncestorExit then Some(exit) else if k == End then Some(False) else None
    {
      ChildReads(cfg, WorldOf(s), k, exit);
    }
  }

  /** What the list can read: its Exit, and whether its child has finished. */
  lemma {:induction false} ListReads(cfg: PlanConf, w: World, k: CondIdx, exit: Tri)
    requires cfg == Family() && w.values == ExitIs(exit) && |w.states| == 2
    requires k != ActionComplete
    ensures Env(cfg, w, 0)(k) ==
      if k == Exit then Some(exit) else if k == End then Some(Truth(w.states[1] == Finished)) else None
  {
    ListSlots(cfg, k);
    OnlyChild(cfg, w.states);
    assert Env(cfg, w, 0)(k) == EvalSlot(cfg, w, Readable(cfg, 0)(k));
  }

  lemma {:induction false} ListSlots(cfg: PlanConf, k: CondIdx)
    requires cfg == Family() && k != ActionComplete
    ensures Readable(cfg, 0)(k) ==
      if k == Exit then Some(User(0, Exit)) else if k == End then Some(AllFinished(0)) else None
  {
    if k !in {AncestorExit, AncestorInvariant, AncestorEnd} {
      ListLocalSlot(cfg, 0, k);
    }
  }

  lemma OnlyChild(cfg: PlanConf, states: seq<NodeState>)
    requires cfg == Family() && |states| == 2
    ensures ChildrenIn(cfg, states, 0, {Finished}) <==> states[1] == Finished
  {
  }

  lemma {:induction false} ListDecides(cfg: PlanConf, s: Plan, exit: Tri)
    requires cfg == Family() && |s.nodes| == 2
    requires (exit == True ==> s.nodes[0].state == Executing) && s.values == ExitIs(exit)
    ensures s.nodes[0].state == Inactive ==> Decide(cfg, s, 0) == Go(Waiting, NoOutcome, NoFailure)
    ensures s.nodes[0].state == Waiting ==> Decide(cfg, s, 0) == Go(Executing, NoOutcome, NoFailure)
    ensures s.nodes[0].state == Executing && s.nodes[1].state != Finished ==>
      Decide(cfg, s, 0) == if exit == True then Go(Failing, Interrupted, Exited) else Stay
  {
    forall k: CondIdx | k != ActionComplete
      ensures Env(cfg, WorldOf(s), 0)(k) ==
        if k == Exit then Some(exit) else if k == End then Some(Truth(s.nodes[1].state == Finished)) else None
    {
      ListReads(cfg, WorldOf(s), k, exit);
    }
  }

  const IDLE := Mark(Executing, QueueNone, NoQueue, None)

  /** The list is executing; its child has been woken. */
  lemma {:induction false} ListStarts(cfg: PlanConf) returns (s: Plan)
    requires cfg == Family()
    ensures Reachable(cfg, s) && Sized(cfg, s) && At(s, Committing, ExitIs(False), None, [RUNNING, ADDED])
  {
    var v := ExitIs(False);
    s := Initial(cfg, map[]);
    assert IsRun(cfg, Initial(cfg, map[]), [], s);
    ListDecides(cfg, Seeing(s, v), False);
    s := Cycle2(cfg, s, Idle, map[], v, None, [ADDED, ASLEEP], [WAIT, Stay], [READY, ASLEEP]);
    ListDecides(cfg, Seeing(s, v), False);
    s := Cycle2(cfg, s, Committing, v, v, None, [READY, ASLEEP], [EXECUTE, Stay], [RUNNING, ADDED]);
  }

  /** The child is waiting. */
  lemma {:induction false} ChildWaits(cfg: PlanConf, s: Plan) returns (t: Plan)
    requires cfg == Family() && Reachable(cfg, s) && Sized(cfg, s)
    requires At(s, Committing, ExitIs(False), None, [RUNNING, ADDED])
    ensures Reachable(cfg, t) && Sized(cfg, t) && At(t, Committing, ExitIs(False), None, [IDLE, READY])
  {
    var v := ExitIs(False);
    ListDecides(cfg, Seeing(s, v), False);
    ChildDecides(cfg, Seeing(s, v), False);
    t := Cycle2(cfg, s, Committing, v, v, None, [RUNNING, ADDED], [Stay, WAIT], [IDLE, READY]);
  }

  lemma {:induction false} ChildTries(cfg: PlanConf, s: Plan) returns (t: Plan)
    requires cfg == Family() && Reachable(cfg, s) && Sized(cfg, s)
    requires At(s, Committing, ExitIs(False), None, [IDLE, READY])
    ensures Reachable(cfg, t) && Sized(cfg, t) && At(t, Resolving, ExitIs(False), None, [IDLE, TRYING])
    ensures t.pend.walk == [1] && t.pend.turns == []
  {
    var v := ExitIs(False);
    t := ToChecking(cfg, s, v, v, None, [IDLE, READY]);
    NobodyPending(cfg, t, Checking, v, None, [IDLE, READY]);
    ChildDecides(cfg, t, False);
    t := Evaluate(cfg, t, 1, EXECUTE, v, None, [IDLE, READY], [IDLE, TRYING]);
    t := ToResolving(cfg, t, v, None, [IDLE, TRYING]);
  }

  /** The child has the mutex and is executing. */
  lemma {:induction false} ChildRuns(cfg: PlanConf, s: Plan) returns (t: Plan)
    requires cfg == Family() && Reachable(cfg, s) && Sized(cfg, s)
    requires At(s, Committing, ExitIs(False), None, [IDLE, READY])
    ensures Reachable(cfg, t) && Sized(cfg, t) && At(t, Committing, ExitIs(False), Some(1), [IDLE, RUNNING])
  {
    t := ChildTries(cfg, s);
    t := ChildGranted(cfg, t);
    t := ToCommitting(cfg, t, ExitIs(False), Some(1), [IDLE, GRANTED]);
    t := Move(cfg, t, 1, ExitIs(False), Some(1), [IDLE, GRANTED], [IDLE, RUNNING]);
  }

  lemma {:induction false} ChildGranted(cfg: PlanConf, s: Plan) returns (t: Plan)
    requires cfg == Family() && Reachable(cfg, s) && Sized(cfg, s) && s.pend.walk == [1] && s.pend.turns == []
    requires At(s, Resolving, ExitIs(False), None, [IDLE, TRYING])
    ensures Reachable(cfg, t) && Sized(cfg, t) && t.pend.walk == t.pend.turns == []
    ensures At(t, Resolving, ExitIs(False), Some(1), [IDLE, GRANTED])
  {
    BatchOfOne(cfg, s, 1);
    t := Batch(cfg, s, ExitIs(False), None, [IDLE, TRYING], [1]);
    assert [1][1..] == [];
    t := GrantedTurn(cfg, t, 1, ExitIs(False), [IDLE, TRYING]);
  }

  /** A reachable state in which a node has finished and still holds its mutex: its list
      was told to exit while it was executing. */
  lemma {:induction false} AMutexIsLeaked(cfg: PlanConf) returns (s: Plan)
    requires cfg == Family()
    ensures Reachable(cfg, s) && Sized(cfg, s)
    ensures s.nodes[1].state == Finished && s.holders(0) == Some(1) && s.hist[1].leaked
  {
    s := ListStarts(cfg);
    s := ChildWaits(cfg, s);
    s := ChildRuns(cfg, s);
    s := Advance(cfg, s, Notify(0), Committing, ExitIs(False), Some(1), [RUNNING, RUNNING]);
    s := BothStop(cfg, s);
    HoldersAreExact(cfg, s, 1, 0);
  }

  /** The list's Exit has come true: both nodes decide on what they see. */
  lemma {:induction false} BothStop(cfg: PlanConf, s: Plan) returns (t: Plan)
    requires cfg == Family() && Reachable(cfg, s) && Sized(cfg, s)
    requires At(s, Committing, ExitIs(False), Some(1), [RUNNING, RUNNING])
    ensures Reachable(cfg, t) && Sized(cfg, t)
    ensures At(t, Committing, ExitIs(True), Some(1), [Mark(Failing, QueueCheck, Candidates, None), FINISHED])
  {
    var v := ExitIs(True);
    ListDecides(cfg, Seeing(s, v), True);
    ChildDecides(cfg, Seeing(s, v), True);
    t := Cycle2(cfg, s, Committing, ExitIs(False), v, Some(1), [RUNNING, RUNNING],
                [Go(Failing, Interrupted, Exited), Go(Finished, Interrupted, ParentExited)],
                [Mark(Failing, QueueCheck, Candidates, None), FINISHED]);
  }

  // ----- a child that outlives its list's iteration -----

  /** A list without conditions; in it, a list that has an End; in that, a task, which is a
      list that repeats; in that, a leaf that never starts. */
  function Nested(): (cfg: PlanConf)
    ensures Simple(cfg) && |cfg| == 4
    ensures cfg[0] == NodeConf(List, None, {}, [], 0, 0) && cfg[1] == NodeConf(List, Some(0), {End}, [], 0, 0)
    ensures cfg[2] == NodeConf(List, Some(1), {Start, End, Repeat}, [], 0, 0)
    ensures cfg[3] == NodeConf(Empty, Some(2), {Start}, [], 0, 0)
  {
    var cfg := [
      NodeConf(List, None, {}, [], 0, 0),
      NodeConf(List, Some(0), {End}, [], 0, 0),
      NodeConf(List, Some(1), {Start, End, Repeat}, [], 0, 0),
      NodeConf(Empty, Some(2), {Start}, [], 0, 0)];
    assert NodeWellFormed(cfg, 0) && NodeWellFormed(cfg, 1) && NodeWellFormed(cfg, 2) && NodeWellFormed(cfg, 3);
    cfg
  }

  /** Both Ends have the value end, and the task's Start the value start; the task always
      repeats. */
  function EndAndStart(end: Tri, start: Tri): map<(nat, CondIdx), Tri> {
    map[(1, End) := end, (2, End) := end, (2, Start) := start, (2, Repeat) := True, (3, Start) := False]
  }

  /** The conditions of a list with one child c, as they are worth to it. */
  function ListView(c: NodeState, k: CondIdx, end: Tri): Option<Tri> {
    if k == ActionComplete then Some(Truth(c == Waiting || c == Finished))
    else if k == End then Some(end)
    else None
  }

  lemma OnlyChildOf(cfg: PlanConf, states: seq<NodeState>, l: nat, c: nat)
    requires |states| == |cfg| && IsChild(cfg, c, l) && forall d: nat | IsChild(cfg, d, l) :: d == c
    ensures ChildrenIn(cfg, states, l, {Finished}) <==> states[c] == Finished
    ensures ChildrenIn(cfg, states, l, {Waiting, Finished}) <==> states[c] == Waiting || states[c] == Finished
  {
  }

  lemma {:induction false} RootReads(cfg: PlanConf, w: World, k: CondIdx)
    requires cfg == Nested() && |w.states| == 4
    ensures Env(cfg, w, 0)(k) == ListView(w.states[1], k, Truth(w.states[1] == Finished))
  {
    RootSlot(cfg, k);
    OnlyChildOf(cfg, w.states, 0, 1);
  }

  lemma {:induction false} RootSlot(cfg: PlanConf, k: CondIdx)
    requires cfg == Nested()
    ensures Readable(cfg, 0)(k) ==
      if k == ActionComplete then Some(AllWaitingOrFinished(0)) else if k == End then Some(AllFinished(0)) else None
  {
    if !IsAncestorSlot(k) { ListLocalSlot(cfg, 0, k); }
  }

  /** A local slot of a list that supplies its End. */
  lemma {:induction false} OwnEndSlot(cfg: PlanConf, i: nat, k: CondIdx)
    requires WellFormed(cfg) && i < |cfg| && cfg[i].kind == List && End in cfg[i].user && !IsAncestorSlot(k)
    ensures Readable(cfg, i)(k) == if k == ActionComplete then Some(AllWaitingOrFinished(i))
      else if k in cfg[i].user then Some(User(i, k)) else None
  {
    ListLocalSlot(cfg, i, k);
    EndSupplied(cfg[i].user, i, k, Readable(cfg, i)(k));
  }

  lemma EndSupplied(user: set<CondIdx>, i: nat, k: CondIdx, slot: Option<Cond>)
    requires End in user
    requires slot == if k == ActionComplete then Some(AllWaitingOrFinished(i))
      else if k in user then Some(User(i, k)) else if k == End then Some(AllFinished(i)) else None
    ensures slot == if k == ActionComplete then Some(AllWaitingOrFinished(i))
      else if k in user then Some(User(i, k)) else None
  {
  }

  lemma {:induction false} InnerReads(cfg: PlanConf, w: World, k: CondIdx, end: Tri, start: Tri)
    requires cfg == Nested() && |w.states| == 4 && w.values == EndAndStart(end, start)
    ensures Env(cfg, w, 1)(k) == ListView(w.states[2], k, end)
  {
    if IsAncestorSlot(k) {
      InheritedValue(cfg, w, 1, k);
      RootReads(cfg, w, k);
    } else {
      OwnEndSlot(cfg, 1, k);
      OnlyChildOf(cfg, w.states, 1, 2);
    }
  }

  /** The same for the task. */
  function TaskView(c: NodeState, k: CondIdx, end: Tri, start: Tri): Option<Tri> {
    if k == AncestorEnd then Some(end)
    else if k == Start then Some(start)
    else if k == Repeat then Some(True)
    else ListView(c, k, end)
  }

  lemma {:induction false} TaskReads(cfg: PlanConf, w: World, k: CondIdx, end: Tri, start: Tri)
    requires cfg == Nested() && |w.states| == 4 && w.values == EndAndStart(end, start)
    ensures Env(cfg, w, 2)(k) == TaskView(w.states[3], k, end, start)
  {
    if IsAncestorSlot(k) {
      InheritedValue(cfg, w, 2, k);
      InnerReads(cfg, w, k, end, start);
    } else {
      OwnEndSlot(cfg, 2, k);
      OnlyChildOf(cfg, w.states, 2, 3);
      TaskValue(cfg, w, k, Readable(cfg, 2)(k), end, start);
    }
  }

  lemma TaskValue(cfg: PlanConf, w: World, k: CondIdx, slot: Option<Cond>, end: Tri, start: Tri)
    requires w.values == EndAndStart(end, start) && |w.states| == 4 && !IsAncestorSlot(k)
    requires ChildrenIn(cfg, w.states, 2, {Waiting, Finished}) <==> w.states[3] == Waiting || w.states[3] == Finished
    requires slot == if k == ActionComplete then Some(AllWaitingOrFinished(2))
      else if k in {Start, End, Repeat} then Some(User(2, k)) else None
    ensures EvalSlot(cfg, w, slot) == TaskView(w.states[3], k, end, start)
  {
  }

  lemma {:induction false} LeafReads(cfg: PlanConf, w: World, k: CondIdx, end: Tri, start: Tri)
    requires cfg == Nested() && |w.states| == 4 && w.values == EndAndStart(end, start)
    ensures Env(cfg, w, 3)(k) == if k == AncestorEnd then Some(end) else if k == Start then Some(False) else None
  {
    if IsAncestorSlot(k) {
      InheritedValue(cfg, w, 3, k);
      TaskReads(cfg, w, k, end, start);
    } else {
      UnwrappedSlot(cfg, 3, k);
      assert OwnSlots(cfg[3], 3)(k) == if k == Start then Some(User(3, k)) else None;
    }
  }

  const WAIT := Go(Waiting, NoOutcome, NoFailure)
  const EXECUTE := Go(Executing, NoOutcome, NoFailure)
  const FINISH := Go(Finishing, NoOutcome, NoFailure)
  const SUCCEED := Go(IterationEnded, Success, NoFailure)

  /** What each node decides in the states it goes through below. */
  function RootChoice(state: NodeState, inner: NodeState): Decision {
    match state
    case Inactive => WAIT
    case Waiting => EXECUTE
    case _ => if inner == Finished then FINISH else Stay
  }

  function InnerChoice(state: NodeState, task: NodeState, end: Tri): Decision {
    match state
    case Inactive => WAIT
    case Waiting => EXECUTE
    case Executing => if end == True then FINISH else Stay
    case Finishing => if task == Waiting || task == Finished then SUCCEED else Stay
    case _ => Go(Finished, NoOutcome, NoFailure)
  }

  function TaskChoice(state: NodeState, leaf: NodeState, end: Tri, start: Tri): Decision {
    match state
    case Inactive => WAIT
    case Waiting => if start == True then EXECUTE else Stay
    case Executing => if end == True then FINISH else Stay
    case Finishing => if leaf == Waiting || leaf == Finished then SUCCEED else Stay
    case _ => WAIT
  }

  function LeafChoice(state: NodeState, task: NodeState, end: Tri): Decision {
    match state
    case Inactive => WAIT
    case Waiting => if end == True then Go(Finished, Skipped, NoFailure) else Stay
    case _ => if task == Waiting then Go(Inactive, NoOutcome, NoFailure) else Stay
  }

  lemma {:induction false} RootDecides(cfg: PlanConf, s: Plan)
    requires cfg == Nested() && |s.nodes| == 4 && s.nodes[0].state in {Inactive, Waiting, Executing}
    ensures Decide(cfg, s, 0) == RootChoice(s.nodes[0].state, s.nodes[1].state)
  {
    forall k: CondIdx
      ensures Env(cfg, WorldOf(s), 0)(k) == ListView(s.nodes[1].state, k, Truth(s.nodes[1].state == Finished))
    {
      RootReads(cfg, WorldOf(s), k);
    }
  }

  lemma {:induction false} InnerDecides(cfg: PlanConf, s: Plan, end: Tri, start: Tri)
    requires cfg == Nested() && |s.nodes| == 4 && s.values == EndAndStart(end, start)
    requires s.nodes[0].state == Executing && s.nodes[1].state != Failing && s.nodes[1].state != Finished
    ensures Decide(cfg, s, 1) == InnerChoice(s.nodes[1].state, s.nodes[2].state, end)
  {
    forall k: CondIdx ensures Env(cfg, WorldOf(s), 1)(k) == ListView(s.nodes[2].state, k, end) {
      InnerReads(cfg, WorldOf(s), k, end, start);
    }
  }

  lemma {:induction false} TaskDecides(cfg: PlanConf, s: Plan, end: Tri, start: Tri)
    requires cfg == Nested() && |s.nodes| == 4 && s.values == EndAndStart(end, start)
    requires s.nodes[2].state != Failing && s.nodes[2].state != Finished
    requires s.nodes[2].state == Inactive ==> s.nodes[1].state == Executing
    requires end == False || s.nodes[2].state == Executing
    ensures Decide(cfg, s, 2) == TaskChoice(s.nodes[2].state, s.nodes[3].state, end, start)
  {
    forall k: CondIdx ensures Env(cfg, WorldOf(s), 2)(k) == TaskView(s.nodes[3].state, k, end, start) {
      TaskReads(cfg, WorldOf(s), k, end, start);
    }
    var n, leaf, c := s.nodes[2], s.nodes[3].state, Env(cfg, WorldOf(s), 2);
    if n.state == Executing {
      RunningTaskDest(n.failure, ParentState(cfg, s, 2), c, leaf, end, start);
    } else {
      TaskDest(n.state, n.failure, ParentState(cfg, s, 2), c, leaf, start);
    }
  }

  lemma RunningTaskDest(f: FailureType, parent: Option<NodeState>, c: Conds, leaf: NodeState, end: Tri, start: Tri)
    requires forall k: CondIdx :: c(k) == TaskView(leaf, k, end, start)
    ensures Dest(List, Executing, f, parent, c) == TaskChoice(Executing, leaf, end, start)
  {
  }

  lemma TaskDest(state: NodeState, f: FailureType, parent: Option<NodeState>, c: Conds, leaf: NodeState, start: Tri)
    requires forall k: CondIdx :: c(k) == TaskView(leaf, k, False, start)
    requires state in {Inactive, Waiting, Finishing, IterationEnded}
    requires state == Inactive ==> parent == Some(Executing)
    ensures Dest(List, state, f, parent, c) == TaskChoice(state, leaf, False, start)
  {
  }

  lemma {:induction false} LeafDecides(cfg: PlanConf, s: Plan, end: Tri, start: Tri)
    requires cfg == Nested() && |s.nodes| == 4 && s.values == EndAndStart(end, start)
    requires s.nodes[3].state in {Inactive, Waiting, Finished}
    requires s.nodes[3].state == Inactive ==> s.nodes[2].state == Executing && end == False
    ensures Decide(cfg, s, 3) == LeafChoice(s.nodes[3].state, s.nodes[2].state, end)
  {
    forall k: CondIdx
      ensures Env(cfg, WorldOf(s), 3)(k) ==
        if k == AncestorEnd then Some(end) else if k == Start then Some(False) else None
    {
      LeafReads(cfg, WorldOf(s), k, end, start);
    }
  }

  const FINISHING := Mark(Finishing, QueueCheck, Candidates, None)
  const FINISHING_IDLE := Mark(Finishing, QueueNone, NoQueue, None)
  const ENDED := Mark(IterationEnded, QueueCheck, Candidates, None)
  const WAITING_IDLE := Mark(Waiting, QueueNone, NoQueue, None)
  const FINISHED := Mark(Finished, QueueCheck, Candidates, None)
  const FINISHED_IDLE := Mark(Finished, QueueNone, NoQueue, None)

  lemma {:induction false} RootWaits(cfg: PlanConf) returns (s: Plan)
    requires cfg == Nested()
    ensures Reachable(cfg, s) && Sized(cfg, s)
    ensures At(s, Committing, EndAndStart(False, True), None, [READY, ASLEEP, ASLEEP, ASLEEP])
  {
    var v := EndAndStart(False, True);
    s := Initial(cfg, map[]);
    assert IsRun(cfg, Initial(cfg, map[]), [], s);
    RootDecides(cfg, Seeing(s, v));
    s := Cycle4(cfg, s, Idle, map[], v, None, [ADDED, ASLEEP, ASLEEP, ASLEEP], [WAIT, Stay, Stay, Stay],
                [READY, ASLEEP, ASLEEP, ASLEEP]);
  }

  lemma {:induction false} RootStarts(cfg: PlanConf) returns (s: Plan)
    requires cfg == Nested()
    ensures Reachable(cfg, s) && Sized(cfg, s)
    ensures At(s, Committing, EndAndStart(False, True), None, [RUNNING, ADDED, ASLEEP, ASLEEP])
  {
    var v := EndAndStart(False, True);
    s := RootWaits(cfg);
    RootDecides(cfg, Seeing(s, v));
    s := Cycle4(cfg, s, Committing, v, v, None, [READY, ASLEEP, ASLEEP, ASLEEP], [EXECUTE, Stay, Stay, Stay],
                [RUNNING, ADDED, ASLEEP, ASLEEP]);
  }

  lemma {:induction false} InnerWaits(cfg: PlanConf) returns (s: Plan)
    requires cfg == Nested()
    ensures Reachable(cfg, s) && Sized(cfg, s)
    ensures At(s, Committing, EndAndStart(False, True), None, [IDLE, READY, ASLEEP, ASLEEP])
  {
    var v := EndAndStart(False, True);
    s := RootStarts(cfg);
    RootDecides(cfg, Seeing(s, v));
    InnerDecides(cfg, Seeing(s, v), False, True);
    s := Cycle4(cfg, s, Committing, v, v, None, [RUNNING, ADDED, ASLEEP, ASLEEP], [Stay, WAIT, Stay, Stay],
                [IDLE, READY, ASLEEP, ASLEEP]);
  }

  lemma {:induction false} InnerStarts(cfg: PlanConf) returns (s: Plan)
    requires cfg == Nested()
    ensures Reachable(cfg, s) && Sized(cfg, s)
    ensures At(s, Committing, EndAndStart(False, True), None, [IDLE, RUNNING, ADDED, ASLEEP])
  {
    var v := EndAndStart(False, True);
    s := InnerWaits(cfg);
    InnerDecides(cfg, Seeing(s, v), False, True);
    s := Cycle4(cfg, s, Committing, v, v, None, [IDLE, READY, ASLEEP, ASLEEP], [Stay, EXECUTE, Stay, Stay],
                [IDLE, RUNNING, ADDED, ASLEEP]);
  }

  lemma {:induction false} TaskWaits(cfg: PlanConf) returns (s: Plan)
    requires cfg == Nested()
    ensures Reachable(cfg, s) && Sized(cfg, s)
    ensures At(s, Committing, EndAndStart(False, True), None, [IDLE, IDLE, READY, ASLEEP])
  {
    var v := EndAndStart(False, True);
    s := InnerStarts(cfg);
    InnerDecides(cfg, Seeing(s, v), False, True);
    TaskDecides(cfg, Seeing(s, v), False, True);
    s := Cycle4(cfg, s, Committing, v, v, None, [IDLE, RUNNING, ADDED, ASLEEP], [Stay, Stay, WAIT, Stay],
                [IDLE, IDLE, READY, ASLEEP]);
  }

  lemma {:induction false} TaskStarts(cfg: PlanConf) returns (s: Plan)
    requires cfg == Nested()
    ensures Reachable(cfg, s) && Sized(cfg, s)
    ensures At(s, Committing, EndAndStart(False, True), None, [IDLE, IDLE, RUNNING, ADDED])
  {
    var v := EndAndStart(False, True);
    s := TaskWaits(cfg);
    TaskDecides(cfg, Seeing(s, v), False, True);
    s := Cycle4(cfg, s, Committing, v, v, None, [IDLE, IDLE, READY, ASLEEP], [Stay, Stay, EXECUTE, Stay],
                [IDLE, IDLE, RUNNING, ADDED]);
  }

  lemma {:induction false} LeafWaits(cfg: PlanConf) returns (s: Plan)
    requires cfg == Nested()
    ensures Reachable(cfg, s) && Sized(cfg, s)
    ensures At(s, Committing, EndAndStart(False, True), None, [IDLE, IDLE, IDLE, READY])
  {
    var v := EndAndStart(False, True);
    s := TaskStarts(cfg);
    TaskDecides(cfg, Seeing(s, v), False, True);
    LeafDecides(cfg, Seeing(s, v), False, True);
    s := Cycle4(cfg, s, Committing, v, v, None, [IDLE, IDLE, RUNNING, ADDED], [Stay, Stay, Stay, WAIT],
                [IDLE, IDLE, IDLE, READY]);
  }

  lemma {:induction false} EndsChange(cfg: PlanConf) returns (s: Plan)
    requires cfg == Nested()
    ensures Reachable(cfg, s) && Sized(cfg, s)
    ensures At(s, Committing, EndAndStart(False, True), None, [IDLE, RUNNING, RUNNING, READY])
  {
    var v := EndAndStart(False, True);
    s := LeafWaits(cfg);
    s := Advance(cfg, s, Notify(1), Committing, v, None, [IDLE, RUNNING, IDLE, READY]);
    s := Advance(cfg, s, Notify(2), Committing, v, None, [IDLE, RUNNING, RUNNING, READY]);
  }

  /** The Ends are true for one micro-step: both lists start to finish, and the leaf is skipped. */
  lemma {:induction false} BothFinish(cfg: PlanConf) returns (s: Plan)
    requires cfg == Nested()
    ensures Reachable(cfg, s) && Sized(cfg, s)
    ensures At(s, Committing, EndAndStart(True, True), None, [IDLE, FINISHING, FINISHING, FINISHED])
  {
    var v, u := EndAndStart(False, True), EndAndStart(True, True);
    s := EndsChange(cfg);
    InnerDecides(cfg, Seeing(s, u), True, True);
    TaskDecides(cfg, Seeing(s, u), True, True);
    LeafDecides(cfg, Seeing(s, u), True, True);
    s := Cycle4(cfg, s, Committing, v, u, None, [IDLE, RUNNING, RUNNING, READY],
                [Stay, FINISH, FINISH, Go(Finished, Skipped, NoFailure)], [IDLE, FINISHING, FINISHING, FINISHED]);
  }

  lemma {:induction false} TaskEnds(cfg: PlanConf, start: Tri) returns (s: Plan)
    requires cfg == Nested()
    ensures Reachable(cfg, s) && Sized(cfg, s)
    ensures At(s, Committing, EndAndStart(False, start), None, [IDLE, FINISHING_IDLE, ENDED, FINISHED_IDLE])
  {
    var u, v := EndAndStart(True, True), EndAndStart(False, start);
    s := BothFinish(cfg);
    InnerDecides(cfg, Seeing(s, v), False, start);
    TaskDecides(cfg, Seeing(s, v), False, start);
    LeafDecides(cfg, Seeing(s, v), False, start);
    s := Cycle4(cfg, s, Committing, u, v, None, [IDLE, FINISHING, FINISHING, FINISHED], [Stay, Stay, SUCCEED, Stay],
                [IDLE, FINISHING_IDLE, ENDED, FINISHED_IDLE]);
  }

  /** The task waits for its next iteration. */
  lemma {:induction false} TaskRepeats(cfg: PlanConf, start: Tri) returns (s: Plan)
    requires cfg == Nested()
    ensures Reachable(cfg, s) && Sized(cfg, s)
    ensures At(s, Committing, EndAndStart(False, start), None, [IDLE, FINISHING_IDLE, READY, FINISHED])
  {
    var v := EndAndStart(False, start);
    s := TaskEnds(cfg, start);
    TaskDecides(cfg, Seeing(s, v), False, start);
    s := Cycle4(cfg, s, Committing, v, v, None, [IDLE, FINISHING_IDLE, ENDED, FINISHED_IDLE], [Stay, Stay, WAIT, Stay],
                [IDLE, FINISHING_IDLE, READY, FINISHED]);
  }

  lemma {:induction false} ListIsTold(cfg: PlanConf, start: Tri) returns (s: Plan)
    requires cfg == Nested()
    ensures Reachable(cfg, s) && Sized(cfg, s)
    ensures At(s, Committing, EndAndStart(False, start), None, [IDLE, FINISHING, READY, FINISHED])
  {
    s := TaskRepeats(cfg, start);
    s := Advance(cfg, s, Notify(1), Committing, EndAndStart(False, start), None, [IDLE, FINISHING, READY, FINISHED]);
  }

  /** A reachable state in which a list's iteration has ended while its child goes on waiting. */
  lemma {:induction false} AWaitingChildOutlivesTheIteration(cfg: PlanConf) returns (s: Plan)
    requires cfg == Nested()
    ensures Reachable(cfg, s) && Sized(cfg, s) && IsChild(cfg, 2, 1)
    ensures s.nodes[1].state == IterationEnded && s.nodes[2].state == Waiting && s.nodes[2].queue == NoQueue
  {
    s := ListLeavesTask(cfg);
  }

  /** In that state a condition of the task may change, so that its evaluation is due: it
      reads the list's End, which nothing keeps active. */
  lemma {:induction false} AnInactiveConditionIsRead(cfg: PlanConf) returns (s: Plan)
    requires cfg == Nested()
    ensures Reachable(cfg, s) && Sized(cfg, s) && IsChild(cfg, 2, 1)
    ensures Enabled(cfg, s, Check(2)) && ReadsAncestors(s.nodes[2].state, ParentState(cfg, s, 2))
    ensures Readable(cfg, 2)(AncestorEnd).Some? && !IsActive(cfg, s, Readable(cfg, 2)(AncestorEnd).value)
  {
    var v, marks := EndAndStart(False, False), [IDLE, ENDED, READY, ADDED];
    s := ListLeavesTask(cfg);
    s := Advance(cfg, s, Notify(2), Committing, v, None, marks);
    s := ToChecking(cfg, s, v, v, None, marks);
    TaskReads(cfg, WorldOf(s), AncestorEnd, False, False);
    NothingKeepsTheEndActive(cfg, s);
  }

  lemma {:induction false} NothingKeepsTheEndActive(cfg: PlanConf, s: Plan)
    requires cfg == Nested() && Reachable(cfg, s) && Sized(cfg, s) && Readable(cfg, 2)(AncestorEnd).Some?
    requires s.nodes[1].state == IterationEnded && s.nodes[2].state == Waiting
    ensures !IsActive(cfg, s, Readable(cfg, 2)(AncestorEnd).value)
  {
    var o := ChildConditionsAreActive(cfg, s, 1, 2, AncestorEnd);
    InnerSupplies(cfg, o);
    NoListRuns(cfg, s);
  }

  lemma {:induction false} NoListRuns(cfg: PlanConf, s: Plan)
    requires cfg == Nested() && Sized(cfg, s)
    requires s.nodes[1].state == IterationEnded && s.nodes[2].state == Waiting
    ensures !SomeListRuns(cfg, s, 1) && !ActiveItself(cfg, s, 1, End)
  {
    assert forall d: nat | d < |cfg| && cfg[d].kind == List && Within(cfg, 1, d) :: d == 1 || d == 2;
  }

  lemma {:induction false} InnerSupplies(cfg: PlanConf, o: nat)
    requires cfg == Nested() && Supplies(cfg, o, 1, End)
    ensures o == 1
  {
    assert IsAncestor(cfg, o, 1) ==> o == 0;
  }

  lemma {:induction false} ListLeavesTask(cfg: PlanConf) returns (s: Plan)
    requires cfg == Nested()
    ensures Reachable(cfg, s) && Sized(cfg, s)
    ensures At(s, Committing, EndAndStart(False, False), None, [IDLE, ENDED, WAITING_IDLE, ADDED])
  {
    var v := EndAndStart(False, False);
    s := ListIsTold(cfg, False);
    InnerDecides(cfg, Seeing(s, v), False, False);
    TaskDecides(cfg, Seeing(s, v), False, False);
    LeafDecides(cfg, Seeing(s, v), False, False);
    s := Cycle4(cfg, s, Committing, v, v, None, [IDLE, FINISHING, READY, FINISHED],
                [Stay, SUCCEED, Stay, Go(Inactive, NoOutcome, NoFailure)], [IDLE, ENDED, WAITING_IDLE, ADDED]);
  }

  /** A reachable state in which a child has started although its list's iteration has ended:
      both decided at the same time. */
  lemma {:induction false} ALeftoverChildStarts(cfg: PlanConf) returns (s: Plan)
    requires cfg == Nested()
    ensures Reachable(cfg, s) && Sized(cfg, s) && IsChild(cfg, 2, 1)
    ensures s.nodes[1].state == IterationEnded && s.nodes[2].state == Executing
    ensures At(s, Committing, EndAndStart(False, True), None, [IDLE, ENDED, RUNNING, ADDED])
  {
    var v := EndAndStart(False, True);
    s := ListIsTold(cfg, True);
    InnerDecides(cfg, Seeing(s, v), False, True);
    TaskDecides(cfg, Seeing(s, v), False, True);
    LeafDecides(cfg, Seeing(s, v), False, True);
    s := Cycle4(cfg, s, Committing, v, v, None, [IDLE, FINISHING, READY, FINISHED],
                [Stay, SUCCEED, EXECUTE, Go(Inactive, NoOutcome, NoFailure)], [IDLE, ENDED, RUNNING, ADDED]);
  }

  /** The list has finished over the running task. */
  lemma {:induction false} ListFinishes(cfg: PlanConf) returns (s: Plan)
    requires cfg == Nested()
    ensures Reachable(cfg, s) && Sized(cfg, s)
    ensures At(s, Committing, EndAndStart(False, True), None, [IDLE, FINISHED, IDLE, READY])
  {
    var v := EndAndStart(False, True);
    s := ALeftoverChildStarts(cfg);
    InnerDecides(cfg, Seeing(s, v), False, True);
    TaskDecides(cfg, Seeing(s, v), False, True);
    LeafDecides(cfg, Seeing(s, v), False, True);
    s := Cycle4(cfg, s, Committing, v, v, None, [IDLE, ENDED, RUNNING, ADDED],
                [Stay, Go(Finished, NoOutcome, NoFailure), Stay, WAIT], [IDLE, FINISHED, IDLE, READY]);
  }

  lemma {:induction false} RootIsTold(cfg: PlanConf) returns (s: Plan)
    requires cfg == Nested()
    ensures Reachable(cfg, s) && Sized(cfg, s)
    ensures At(s, Checking, EndAndStart(False, True), None, [RUNNING, FINISHED, IDLE, READY])
  {
    var v, marks := EndAndStart(False, True), [RUNNING, FINISHED, IDLE, READY];
    s := ListFinishes(cfg);
    s := Advance(cfg, s, Notify(0), Committing, v, None, marks);
    s := ToChecking(cfg, s, v, v, None, marks);
  }

  /** A reachable state in which leaving the default End out of ancestor-end changes a
      decision: the root's only child has finished, so with it the leaf, whose evaluation is
      due, would be skipped; without it, it waits on.  The condition it reads is active. */
  lemma {:induction false} TheElisionMatters(cfg: PlanConf) returns (s: Plan)
    requires cfg == Nested()
    ensures Reachable(cfg, s) && Sized(cfg, s) && s.nodes[3].state == Waiting && Enabled(cfg, s, Check(3))
    ensures IsChild(cfg, 3, 2) && Readable(cfg, 3)(AncestorEnd).Some?
    ensures IsActive(cfg, s, Readable(cfg, 3)(AncestorEnd).value)
    ensures Decide(cfg, s, 3) == Stay
    ensures Dest(Empty, Waiting, s.nodes[3].failure, ParentState(cfg, s, 3), FullEnv(cfg, WorldOf(s), 3))
         == Go(Finished, Skipped, NoFailure)
  {
    s := RootIsTold(cfg);
    LeafDecides(cfg, s, False, True);
    RootsEndIsMet(cfg, WorldOf(s));
    LeafReads(cfg, WorldOf(s), AncestorExit, False, True);
    LeafReads(cfg, WorldOf(s), AncestorInvariant, False, True);
    LeafReads(cfg, WorldOf(s), AncestorEnd, False, True);
    var o := ChildConditionsAreActive(cfg, s, 2, 3, AncestorEnd);
    assert IsAncestor(cfg, o, 2) ==> Within(cfg, 2, 2);
    assert RunsWithin(cfg, s, o, 2);
  }

  lemma {:induction false} RootsEndIsMet(cfg: PlanConf, w: World)
    requires cfg == Nested() && |w.states| == 4 && w.states[1] == Finished
    ensures KnownTrue(FullEnv(cfg, w, 3), AncestorEnd)
  {
    assert IsAncestor(cfg, 2, 3) && IsAncestor(cfg, 1, 2) && IsAncestor(cfg, 0, 1);
    assert IsAncestor(cfg, 0, 3) by { assert IsAncestor(cfg, 0, 2); }
    assert ChildrenIn(cfg, w.states, 0, {Finished});
    assert SomeDefaultEndMet(cfg, w, 3);
    ElisionDropsExactly(cfg, w, 3);
  }

  // ----- a list whose pre-condition fails -----

  function Doubtful(): (cfg: PlanConf)
    ensures Simple(cfg) && |cfg| == 2
    ensures cfg[0] == NodeConf(List, None, {Pre}, [], 0, 0) && cfg[1] == NodeConf(Empty, Some(0), {}, [], 0, 0)
  {
    var cfg := [NodeConf(List, None, {Pre}, [], 0, 0), NodeConf(Empty, Some(0), {}, [], 0, 0)];
    assert NodeWellFormed(cfg, 0) && NodeWellFormed(cfg, 1);
    cfg
  }

  lemma {:induction false} DoubtfulSlot(cfg: PlanConf, k: CondIdx)
    requires cfg == Doubtful() && k != ActionComplete && k != End
    ensures Readable(cfg, 0)(k) == if k == Pre then Some(User(0, Pre)) else None
  {
    if !IsAncestorSlot(k) { ListLocalSlot(cfg, 0, k); }
  }

  lemma DoubtfulIsStructured(cfg: PlanConf)
    requires cfg == Doubtful()
    ensures Structured(cfg, 0) && IsChild(cfg, 1, 0)
  {
  }

  lemma {:induction false} DoubtfulDecides(cfg: PlanConf, s: Plan)
    requires cfg == Doubtful() && |s.nodes| == 2 && s.values == map[(0, Pre) := False]
    ensures s.nodes[0].state == Inactive ==> Decide(cfg, s, 0) == WAIT
    ensures s.nodes[0].state == Waiting ==> Decide(cfg, s, 0) == Go(IterationEnded, Outcome.Failure, PreConditionFailed)
  {
    forall k: CondIdx | k != ActionComplete && k != End
      ensures Env(cfg, WorldOf(s), 0)(k) == if k == Pre then Some(False) else None
    {
      DoubtfulSlot(cfg, k);
    }
  }

  lemma {:induction false} DoubtfulWaits(cfg: PlanConf) returns (s: Plan)
    requires cfg == Doubtful()
    ensures Reachable(cfg, s) && Sized(cfg, s) && At(s, Committing, map[(0, Pre) := False], None, [READY, ASLEEP])
  {
    var v: map<(nat, CondIdx), Tri> := map[(0, Pre) := False];
    s := Initial(cfg, map[]);
    assert IsRun(cfg, Initial(cfg, map[]), [], s);
    DoubtfulDecides(cfg, Seeing(s, v));
    s := Cycle2(cfg, s, Idle, map[], v, None, [ADDED, ASLEEP], [WAIT, Stay], [READY, ASLEEP]);
  }

  /** A reachable state in which an iteration has ended by its failed pre-condition, and the
      children have never started. */
  lemma {:induction false} AFailedPreConditionLeavesChildrenInactive(cfg: PlanConf) returns (s: Plan)
    requires cfg == Doubtful()
    ensures Reachable(cfg, s) && Sized(cfg, s) && Structured(cfg, 0) && IsChild(cfg, 1, 0)
    ensures s.phase == Committing && NoneIn(s, StateChange)
    ensures s.nodes[0].state == IterationEnded
    ensures s.nodes[0].failure == PreConditionFailed && s.nodes[1].state == Inactive
  {
    s := DoubtfulEnds(cfg);
    DoubtfulIsStructured(cfg);
    EndedFromWaiting(cfg, s);
  }

  lemma {:induction false} DoubtfulEnds(cfg: PlanConf) returns (s: Plan)
    requires cfg == Doubtful()
    ensures Reachable(cfg, s) && Sized(cfg, s) && s.snap[0] == Waiting
    ensures At(s, Committing, map[(0, Pre) := False], None, [ENDED, ASLEEP])
  {
    var v: map<(nat, CondIdx), Tri> := map[(0, Pre) := False];
    s := DoubtfulWaits(cfg);
    DoubtfulDecides(cfg, Seeing(s, v));
    s := Cycle2(cfg, s, Committing, v, v, None, [READY, ASLEEP],
                [Go(IterationEnded, Outcome.Failure, PreConditionFailed), Stay], [ENDED, ASLEEP]);
  }

  lemma {:induction false} EndedFromWaiting(cfg: PlanConf, s: Plan)
    requires WellFormed(cfg) && Reachable(cfg, s) && Sized(cfg, s) && |cfg| > 0 && s.phase == Committing
    requires s.nodes[0].state == IterationEnded && s.snap[0] == Waiting
    ensures s.nodes[0].failure == PreConditionFailed
  {
    ReachableInv(cfg, s);
    assert NodeOk(cfg, s, 0);
  }
}
