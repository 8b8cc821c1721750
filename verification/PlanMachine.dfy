/** A plan in execution as a step system: the queues and quiescence loop of the
    executive, the nodes' cached decisions, mutexes, variables and assignments.
    Every node marked for checking decides on one snapshot; the decided moves are
    then committed one by one in any order. */
module PlanMachine {
  import opened NodeConstants
  import opened Options
  import opened Conditions
  import opened NodeLogic
  import opened WalkedQueue

  /** The queue a node is linked into (at most one). */
  datatype Queue = NoQueue | Candidates | PendingQueue | StateChange | FinishedRoots

  /** A variable's value: unknown, or a known one. */
  type Val = Option<int>

  datatype Variable = Variable(value: Val, saved: Val)

  datatype NodeRec = NodeRec(
    state: NodeState,
    outcome: Outcome,
    failure: FailureType,
    next: Option<NodeState>,
    nextOutcome: Outcome,
    nextFailure: FailureType,
    status: QueueStatus,
    queue: Queue,
    active: CondIdx -> int,
    ack: bool,
    aborted: bool,
    fixedValue: Val)

  /** What has happened to a node so far; the executive does not keep this.  leaked
      records a using-mutex left held by a move into FINISHED. */
  datatype Hist = Hist(
    waits: nat, resets: nat, repeats: nat, moves: nat, executions: nat, leaked: bool, before: Val)

  datatype Phase = Idle | Checking | Resolving | Committing | Effects

  /** The pending queue, by priority and then by time; in a pass over it, the part not yet
      looked at and the turns that are due; the nodes that wait on all their resources, and
      those among them that are still to be told that one has been given back.  selfRefused
      records the nodes whose last attempt nobody else stood in the way of. */
  datatype Pending = Pending(
    queue: seq<nat>,
    walk: seq<nat>,
    turns: seq<nat>,
    waiters: set<nat>,
    toTell: set<nat>,
    selfRefused: set<nat>)

  datatype Plan = Plan(
    nodes: seq<NodeRec>,
    hist: seq<Hist>,
    phase: Phase,
    snap: seq<NodeState>,
    values: map<(nat, CondIdx), Tri>,
    handles: map<nat, CommandHandle>,
    holders: nat -> Option<nat>,
    varHolders: map<nat, nat>,
    vars: map<nat, Variable>,
    toExecute: set<nat>,
    toRetract: set<nat>,
    pend: Pending)

  // ----- single-node updates -----

  predicate NotifyOk(q: QueueStatus) {
    q != QueuePendingTryCheck && q != QueueDelete
  }

  /** notify: mark the node for checking; the two statuses without an arm of their own
      report an error and are left as they are. */
  function Notified(n: NodeRec): NodeRec {
    match n.status
    case QueueNone => n.(status := QueueCheck, queue := Candidates)
    case QueuePending => n.(status := QueuePendingCheck)
    case QueuePendingTry => n.(status := QueuePendingTryCheck)
    case QueueTransition => n.(status := QueueTransitionCheck)
    case _ => n
  }

  /** notifyResourceAvailable. */
  function ResourceAvailable(n: NodeRec): NodeRec {
    match n.status
    case QueuePending => n.(status := QueuePendingTry)
    case QueuePendingCheck => n.(status := QueuePendingTryCheck)
    case _ => n
  }

  /** getDestState stores its decision in the node. */
  function Decided(n: NodeRec, d: Decision): NodeRec {
    match d
    case Go(to, o, f) =>
      n.(next := Some(to),
         nextOutcome := if o != NoOutcome then o else n.nextOutcome,
         nextFailure := if f != NoFailure then f else n.nextFailure)
    case _ => n.(next := None)
  }

  /** getStateChangeNode: take the node off the state-change queue. */
  function Popped(n: NodeRec): NodeRec {
    var p := n.(status := QueueNone, queue := NoQueue);
    if n.status == QueueTransitionCheck then Notified(p) else p
  }

  /** The activation counts after the handlers of a move; a null slot has none. */
  function Shifted(slots: Slots, kind: Kind, from: NodeState, to: NodeState, a: CondIdx -> int): CondIdx -> int {
    k => a(k) + (if slots(k).Some? then Delta(kind, from, to, k) else 0)
  }

  /** transition: commit the cached decision of a node taken off the queue. */
  function Committed(kind: Kind, isRoot: bool, slots: Slots, n: NodeRec, rhs: Val): NodeRec
    requires n.next.Some?
  {
    var to := n.next.value;
    var m := Popped(n).(
      state := to,
      outcome := NewOutcome(n.state, to, n.outcome, n.nextOutcome),
      failure := NewFailure(n.state, to, n.failure, n.nextOutcome, n.nextFailure),
      next := None,
      nextOutcome := NoOutcome,
      nextFailure := NoFailure,
      active := Shifted(slots, kind, n.state, to, n.active),
      ack := n.ack && !(kind == Assignment && to == Executing && n.active(ActionComplete) == 0),
      aborted := n.aborted && !(kind == Assignment && to == Failing && n.active(AbortComplete) == 0),
      fixedValue := if kind == Assignment && to == Executing then rhs else n.fixedValue);
    if to == Finished && isRoot then m.(status := QueueDelete, queue := FinishedRoots) else Notified(m)
  }

  /** The children a list notifies when it enters a state. */
  predicate Wakes(parentNow: NodeState, child: NodeState) {
    || (parentNow == Waiting && child == Finished)
    || ((parentNow == Executing || parentNow == Finished) && child == Inactive)
  }

  function Moved(h: Hist, from: NodeState, to: NodeState, usesMutex: bool, value: Val): Hist {
    Hist(
      h.waits + (if to == Waiting then 1 else 0),
      h.resets + (if from == Finished then 1 else 0),
      h.repeats + (if from == IterationEnded && to == Waiting then 1 else 0),
      h.moves + 1,
      h.executions + (if to == Executing then 1 else 0),
      if to == Finished && (from == Executing || from == Failing) then usesMutex
      else if to == Finished && from == Waiting then false
      else h.leaked,
      if to == Executing then value else h.before)
  }

  // ----- whole-plan helpers -----

  function StatesOf(s: Plan): seq<NodeState> {
    seq(|s.nodes|, i requires 0 <= i < |s.nodes| => s.nodes[i].state)
  }

  function WorldOf(s: Plan): World {
    World(StatesOf(s), s.values, s.handles,
      set i | 0 <= i < |s.nodes| && s.nodes[i].ack,
      set i | 0 <= i < |s.nodes| && s.nodes[i].aborted)
  }

  function ParentState(cfg: PlanConf, s: Plan, i: nat): Option<NodeState>
    requires i < |cfg|
  {
    if cfg[i].parent.Some? && cfg[i].parent.value < |s.nodes|
    then Some(s.nodes[cfg[i].parent.value].state) else None
  }

  /** getDestState of node i in the current state. */
  function Decide(cfg: PlanConf, s: Plan, i: nat): Decision
    requires i < |cfg| == |s.nodes|
  {
    Dest(cfg[i].kind, s.nodes[i].state, s.nodes[i].failure, ParentState(cfg, s, i), Env(cfg, WorldOf(s), i))
  }

  predicate NeedsResources(conf: NodeConf) {
    conf.kind == Assignment || conf.mutexes != []
  }

  predicate CanAcquire(conf: NodeConf, s: Plan) {
    && (forall m | m in conf.mutexes :: s.holders(m) == None)
    && (conf.kind == Assignment ==> conf.variable !in s.varHolders)
  }

  /** The holders of all mutexes after node i has taken, or given back, those listed. */
  function Taken(holders: nat -> Option<nat>, mutexes: seq<nat>, i: nat): nat -> Option<nat> {
    m => if m in mutexes then Some(i) else holders(m)
  }

  function Released(holders: nat -> Option<nat>, mutexes: seq<nat>, i: nat): nat -> Option<nat> {
    m => if m in mutexes && holders(m) == Some(i) then None else holders(m)
  }

  function VariableOf(s: Plan, v: nat): Variable {
    if v in s.vars then s.vars[v] else Variable(None, None)
  }

  // ----- steps -----

  datatype Step =
    | Notify(node: nat)
    | ResourceFreed(node: nat)
    | Begin(values: map<(nat, CondIdx), Tri>, handles: map<nat, CommandHandle>)
    | Check(node: nat)
    | EndCheck
    | NextBatch
    | Resolve(node: nat)
    | EndResolve
    | Commit(node: nat, rhs: Val)
    | Again(values: map<(nat, CondIdx), Tri>, handles: map<nat, CommandHandle>)
    | EndLoop
    | Execute(node: nat)
    | Retract(node: nat)
    | EndEffects

  predicate NoneIn(s: Plan, q: Queue) {
    forall i | 0 <= i < |s.nodes| :: s.nodes[i].queue != q
  }

  /** When the executive may take a step.  Notifications come from conditions and other
      listeners, so they may arrive at any time; but whoever waits for a resource that a step
      gives back is told before anything else happens. */
  predicate Enabled(cfg: PlanConf, s: Plan, step: Step)
    requires |cfg| == |s.nodes| == |s.hist| == |s.snap|
  {
    (s.pend.toTell == {} || step.ResourceFreed?) && Due(cfg, s, step)
  }

  predicate Due(cfg: PlanConf, s: Plan, step: Step)
    requires |cfg| == |s.nodes| == |s.hist| == |s.snap|
  {
    match step
    case Notify(i) => i < |cfg| && NotifyOk(s.nodes[i].status)
    case ResourceFreed(i) => i < |cfg| && i in s.pend.toTell
    case Begin(_, _) => s.phase == Idle
    case Check(i) => s.phase == Checking && i < |cfg| && s.nodes[i].queue == Candidates
    case EndCheck => s.phase == Checking && NoneIn(s, Candidates)
    case NextBatch => s.phase == Resolving && s.pend.turns == [] && s.pend.walk != []
    case Resolve(i) =>
      && s.phase == Resolving && i < |cfg| && s.nodes[i].queue == PendingQueue
      && s.pend.turns != [] && s.pend.turns[0] == i
    case EndResolve => s.phase == Resolving && s.pend.turns == [] && s.pend.walk == []
    case Commit(i, _) => s.phase == Committing && i < |cfg| && s.nodes[i].queue == StateChange && s.nodes[i].next.Some?
    case Again(_, _) => s.phase == Committing && NoneIn(s, StateChange) && s.toExecute == {} && s.toRetract == {}
    case EndLoop => s.phase == Committing && NoneIn(s, StateChange)
    case Execute(i) => s.phase == Effects && i < |cfg| && i in s.toExecute
    case Retract(i) => s.phase == Effects && i < |cfg| && s.toExecute == {} && i in s.toRetract
    case EndEffects => s.phase == Effects && s.toExecute == {} && s.toRetract == {}
  }

  function SetNode(s: Plan, i: nat, n: NodeRec): Plan
    requires i < |s.nodes|
  {
    s.(nodes := s.nodes[i := n])
  }

  /** A candidate after its evaluation: queued for its move, or for resources, or dropped. */
  function Checked(n: NodeRec, d: Decision, needsResources: bool): NodeRec {
    var m := Decided(n, d);
    if !d.Go? then m.(status := QueueNone, queue := NoQueue)
    else if d.to == Executing && needsResources then m.(status := QueuePendingTry, queue := PendingQueue)
    else m.(status := QueueTransition, queue := StateChange)
  }

  function CheckNode(cfg: PlanConf, s: Plan, i: nat): Plan
    requires i < |cfg| == |s.nodes|
  {
    var m := Checked(s.nodes[i], Decide(cfg, s, i), NeedsResources(cfg[i]));
    SetNode(s, i, m).(pend := if m.queue == PendingQueue then Awaiting(cfg, s.pend, i) else s.pend)
  }

  // ----- the pending queue and the waiting lists -----

  function Priority(cfg: PlanConf, i: nat): int {
    if i < |cfg| then cfg[i].priority else 0
  }

  function Priorities(cfg: PlanConf): nat -> int {
    (i: nat) => Priority(cfg, i)
  }

  /** addPendingNode. */
  function Awaiting(cfg: PlanConf, p: Pending, i: nat): Pending {
    p.(queue := Inserted(p.queue, i, Priorities(cfg)))
  }

  /** removePendingNode, with releaseResourceReservations. */
  function NoLongerPending(p: Pending, i: nat): Pending {
    p.(queue := Without(p.queue, i), waiters := p.waiters - {i}, selfRefused := p.selfRefused - {i})
  }

  /** Looking at the pending node takes it off the queue: it is checked, and is not to execute. */
  predicate Leaves(cfg: PlanConf, s: Plan, i: nat) {
    && i < |cfg| == |s.nodes|
    && (s.nodes[i].status == QueuePendingCheck || s.nodes[i].status == QueuePendingTryCheck)
    && !(Decide(cfg, s, i).Go? && Decide(cfg, s, i).to == Executing)
  }

  predicate MayTry(cfg: PlanConf, s: Plan, i: nat) {
    i < |cfg| == |s.nodes| && Attempts(s.nodes[i], Decide(cfg, s, i))
  }

  function Leaving(cfg: PlanConf, s: Plan): nat -> bool {
    (i: nat) => Leaves(cfg, s, i)
  }

  function Trying(cfg: PlanConf, s: Plan, may: bool): nat -> bool {
    (i: nat) => MayTry(cfg, s, i) == may
  }

  /** The nodes of one priority that the walk looks at: those that may try their resources do
      so after all of them have been looked at. */
  function Batched(cfg: PlanConf, s: Plan): Pending {
    var looked := Looked(s.pend.walk, Leaving(cfg, s), Priorities(cfg));
    s.pend.(turns := Those(looked, Trying(cfg, s, false)) + Those(looked, Trying(cfg, s, true)),
            walk := Left(s.pend.walk, Leaving(cfg, s), Priorities(cfg)))
  }

  /** Nodes among those that wait which use a mutex that is given back, or the variable. */
  function WaitersOn(cfg: PlanConf, waiters: set<nat>, given: nat -> bool, variable: Option<nat>): set<nat> {
    set j | j in waiters && j < |cfg| && Uses(cfg[j], given, variable)
  }

  predicate Uses(conf: NodeConf, given: nat -> bool, variable: Option<nat>) {
    (exists m | m in conf.mutexes :: given(m)) || (conf.kind == Assignment && variable == Some(conf.variable))
  }

  /** The mutexes acquired before the first that is taken. */
  function FreeOnes(mutexes: seq<nat>, holders: nat -> Option<nat>): seq<nat> {
    if mutexes == [] || holders(mutexes[0]).Some? then [] else [mutexes[0]] + FreeOnes(mutexes[1..], holders)
  }

  /** The mutexes that a failed attempt gives back: those it has got, and those the node had. */
  function GivenBack(conf: NodeConf, i: nat, holders: nat -> Option<nat>): nat -> bool {
    m => m in conf.mutexes && (holders(m) == Some(i) || m in FreeOnes(conf.mutexes, holders))
  }

  /** The mutexes that a node gives back on entering a state. */
  function Returned(conf: NodeConf, i: nat, from: NodeState, to: NodeState, holders: nat -> Option<nat>): nat -> bool {
    m => ReleasesMutexes(from, to) && m in conf.mutexes && holders(m) == Some(i)
  }

  /** Another node has one of the resources that node i needs. */
  predicate HeldByOther(conf: NodeConf, i: nat, holders: nat -> Option<nat>, varHolders: map<nat, nat>) {
    || (exists m | m in conf.mutexes :: holders(m).Some? && holders(m) != Some(i))
    || (conf.kind == Assignment && conf.variable in varHolders && varHolders[conf.variable] != i)
  }

  /** After a failed attempt the node waits on all its resources, and the others that wait on
      what it gives back are told; what it tells itself is overwritten. */
  function Refused(cfg: PlanConf, s: Plan, i: nat): Pending
    requires i < |cfg|
  {
    s.pend.(waiters := s.pend.waiters + {i},
            toTell := WaitersOn(cfg, s.pend.waiters - {i}, GivenBack(cfg[i], i, s.holders), None),
            selfRefused := if HeldByOther(cfg[i], i, s.holders, s.varHolders) then s.pend.selfRefused - {i}
                           else s.pend.selfRefused + {i})
  }

  /** The pending node's turn is over; m is its record. */
  function TurnTaken(cfg: PlanConf, s: Plan, i: nat, attempts: bool, m: NodeRec): Pending
    requires i < |cfg|
  {
    var p := if m.queue != PendingQueue then NoLongerPending(s.pend, i)
             else if attempts then Refused(cfg, s, i) else s.pend;
    p.(turns := if p.turns == [] then [] else p.turns[1..])
  }

  /** What a node gives back on entering a state is announced to all who wait for it. */
  function Announced(cfg: PlanConf, s: Plan, i: nat, from: NodeState, to: NodeState): Pending
    requires i < |cfg|
  {
    var conf := cfg[i];
    var given := Returned(conf, i, from, to, s.holders);
    var variable := if ReturnsVariable(conf, i, from, to, s.varHolders) then Some(conf.variable) else None;
    s.pend.(toTell := WaitersOn(cfg, s.pend.waiters, given, variable))
  }

  /** A pending node after its turn in resolveResourceConflicts.  In the PENDING_CHECK arm
      the status is overwritten with PENDING after the node has left the pending queue. */
  function Resolved(n: NodeRec, d: Decision, free: bool): NodeRec {
    match n.status
    case QueuePendingCheck =>
      var m := Decided(n, d).(status := QueuePending);
      if !d.Go? then m.(queue := NoQueue)
      else if d.to != Executing then m.(queue := StateChange)
      else m
    case QueuePendingTryCheck =>
      var m := Decided(n, d);
      if !d.Go? then m.(status := QueueNone, queue := NoQueue)
      else if d.to != Executing || free then m.(status := QueueTransition, queue := StateChange)
      else m.(status := QueuePending)
    case QueuePendingTry =>
      if free then n.(status := QueueTransition, queue := StateChange) else n.(status := QueuePending)
    case _ => n
  }

  /** Does the pending node try to acquire its resources when its turn comes? */
  predicate Attempts(n: NodeRec, d: Decision) {
    n.status == QueuePendingTry || (n.status == QueuePendingTryCheck && d.Go? && d.to == Executing)
  }

  /** The pending node's turn.  An attempt that fails gives back every mutex of the node
      that it holds, those it held before the attempt included. */
  function ResolveNode(cfg: PlanConf, s: Plan, i: nat): Plan
    requires i < |cfg| == |s.nodes| == |s.hist|
  {
    var n, d, free := s.nodes[i], Decide(cfg, s, i), CanAcquire(cfg[i], s);
    var attempts := Attempts(n, d);
    SetNode(s, i, Resolved(n, d, free)).(
      pend := TurnTaken(cfg, s, i, attempts, Resolved(n, d, free)),
      hist := if attempts then s.hist[i := s.hist[i].(leaked := false)] else s.hist,
      holders := if !attempts then s.holders
                 else if free then Taken(s.holders, cfg[i].mutexes, i)
                 else Released(s.holders, cfg[i].mutexes, i),
      varHolders := if attempts && free && cfg[i].kind == Assignment
                    then s.varHolders[cfg[i].variable := i] else s.varHolders)
  }

  /** Mutexes the node gives back on entering its next state. */
  predicate ReleasesMutexes(from: NodeState, to: NodeState) {
    || (to == IterationEnded && from != Waiting)
    || (to == Finished && from == Waiting)
  }

  predicate ReleasesVariable(from: NodeState, to: NodeState) {
    || (to == IterationEnded && from != Waiting)
    || (to == Finished && from == Failing)
  }

  /** ListNode::setState: node j after its parent has perhaps entered a state. */
  function Woken(isChild: bool, parentNow: NodeState, n: NodeRec): NodeRec {
    if isChild && Wakes(parentNow, n.state) then Notified(n) else n
  }

  /** The Assignment saves its variable's value and is to store its own. */
  predicate Starts(conf: NodeConf, to: NodeState) {
    conf.kind == Assignment && to == Executing
  }

  function CommittedNodes(cfg: PlanConf, s: Plan, i: nat, rhs: Val): seq<NodeRec>
    requires i < |cfg| == |s.nodes| && s.nodes[i].next.Some?
  {
    seq(|s.nodes|, j requires 0 <= j < |s.nodes| =>
      if j == i then Committed(cfg[i].kind, cfg[i].parent.None?, SlotsOf(cfg, i), s.nodes[i], rhs)
      else Woken(IsChild(cfg, j, i), s.nodes[i].next.value, s.nodes[j]))
  }

  predicate ReturnsVariable(conf: NodeConf, i: nat, from: NodeState, to: NodeState, held: map<nat, nat>) {
    conf.kind == Assignment && ReleasesVariable(from, to) && conf.variable in held && held[conf.variable] == i
  }

  function CommittedVarHolders(conf: NodeConf, i: nat, from: NodeState, to: NodeState, held: map<nat, nat>)
      : map<nat, nat>
  {
    if ReturnsVariable(conf, i, from, to, held) then held - {conf.variable} else held
  }

  function CommittedVars(conf: NodeConf, to: NodeState, vars: map<nat, Variable>, v: Variable): map<nat, Variable> {
    if Starts(conf, to) then vars[conf.variable := v.(saved := v.value)] else vars
  }

  function CommitNode(cfg: PlanConf, s: Plan, i: nat, rhs: Val): Plan
    requires i < |cfg| == |s.nodes| == |s.hist| && s.nodes[i].next.Some?
  {
    var conf, from, to := cfg[i], s.nodes[i].state, s.nodes[i].next.value;
    var v := VariableOf(s, conf.variable);
    s.(pend := Announced(cfg, s, i, from, to),
       nodes := CommittedNodes(cfg, s, i, rhs),
       hist := s.hist[i := Moved(s.hist[i], from, to, conf.mutexes != [], v.value)],
       holders := if ReleasesMutexes(from, to) then Released(s.holders, conf.mutexes, i) else s.holders,
       varHolders := CommittedVarHolders(conf, i, from, to, s.varHolders),
       vars := CommittedVars(conf, to, s.vars, v),
       toExecute := if Starts(conf, to) then s.toExecute + {i} else s.toExecute,
       toRetract := if conf.kind == Assignment && to == Failing then s.toRetract + {i} else s.toRetract)
  }

  /** Assignment::execute: store the fixed value and raise the acknowledgement. */
  function ExecuteNode(cfg: PlanConf, s: Plan, i: nat): Plan
    requires i < |cfg| == |s.nodes|
  {
    var n, x := s.nodes[i], cfg[i].variable;
    SetNode(s, i, if n.active(ActionComplete) > 0 && !n.ack then Notified(n.(ack := true)) else n).(
      vars := s.vars[x := VariableOf(s, x).(value := n.fixedValue)],
      toExecute := s.toExecute - {i})
  }

  /** Assignment::retract: restore the saved value and raise abort-complete. */
  function RetractNode(cfg: PlanConf, s: Plan, i: nat): Plan
    requires i < |cfg| == |s.nodes|
  {
    var n, x := s.nodes[i], cfg[i].variable;
    SetNode(s, i, if n.active(AbortComplete) > 0 && !n.aborted then Notified(n.(aborted := true)) else n).(
      vars := s.vars[x := VariableOf(s, x).(value := VariableOf(s, x).saved)],
      toRetract := s.toRetract - {i})
  }

  function Apply(cfg: PlanConf, s: Plan, step: Step): Plan
    requires |cfg| == |s.nodes| == |s.hist| == |s.snap|
    requires Enabled(cfg, s, step)
  {
    match step
    case Notify(i) => SetNode(s, i, Notified(s.nodes[i]))
    case ResourceFreed(i) =>
      SetNode(s, i, ResourceAvailable(s.nodes[i])).(pend := s.pend.(toTell := s.pend.toTell - {i}))
    case Begin(v, h) => s.(phase := Checking, snap := StatesOf(s), values := v, handles := h)
    case Check(i) => CheckNode(cfg, s, i)
    case EndCheck => s.(phase := Resolving, pend := s.pend.(walk := s.pend.queue))
    case NextBatch => s.(pend := Batched(cfg, s))
    case Resolve(i) => ResolveNode(cfg, s, i)
    case EndResolve => s.(phase := Committing)
    case Commit(i, rhs) => CommitNode(cfg, s, i, rhs)
    case Again(v, h) => s.(phase := Checking, snap := StatesOf(s), values := v, handles := h)
    case EndLoop => s.(phase := Effects)
    case Execute(i) => ExecuteNode(cfg, s, i)
    case Retract(i) => RetractNode(cfg, s, i)
    case EndEffects => s.(phase := Idle)
  }

  // ----- runs -----

  function FreshNode(isRoot: bool): NodeRec {
    NodeRec(Inactive, NoOutcome, NoFailure, None, NoOutcome, NoFailure,
      if isRoot then QueueCheck else QueueNone,
      if isRoot then Candidates else NoQueue,
      k => 0, false, false, None)
  }

  /** Freshly added plans: every node inactive, the roots put up for checking. */
  function Initial(cfg: PlanConf, vars: map<nat, Variable>): Plan {
    Plan(
      seq(|cfg|, i requires 0 <= i < |cfg| => FreshNode(cfg[i].parent.None?)),
      seq(|cfg|, i => Hist(0, 0, 0, 0, 0, false, None)),
      Idle,
      seq(|cfg|, i => Inactive),
      map[], map[], m => None, map[], vars, {}, {}, Pending([], [], [], {}, {}, {}))
  }

  ghost predicate Sized(cfg: PlanConf, s: Plan) {
    |cfg| == |s.nodes| == |s.hist| == |s.snap|
  }

  /** The states along which a sequence of enabled steps leads. */
  ghost predicate IsRun(cfg: PlanConf, s: Plan, steps: seq<Step>, t: Plan)
    decreases |steps|
  {
    && Sized(cfg, s)
    && if steps == [] then s == t
       else Enabled(cfg, s, steps[0]) && IsRun(cfg, Apply(cfg, s, steps[0]), steps[1..], t)
  }

  ghost predicate Reachable(cfg: PlanConf, s: Plan) {
    exists vars, steps :: IsRun(cfg, Initial(cfg, vars), steps, s)
  }
}
