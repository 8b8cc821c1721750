/** Nodes and the executive's queues as the program has them: objects whose methods
    update their fields.  Each method is proved against the functions of NodeLogic and
    PlanMachine, so what is proved of those holds of the objects. */
module NodeClass {
  import opened NodeConstants
  import opened Options
  import opened Conditions
  import opened NodeLogic
  import opened PlanMachine
  import opened PlanInvariant
  import WalkedQueue

  class UserVariable {
    var value: Val
    var saved: Val
  }

  class PlexilExec {
    var candidates: seq<NodeImpl>
    var pending: seq<NodeImpl>
    var stateChanges: seq<NodeImpl>
    var finishedRoots: seq<NodeImpl>
    var toExecute: seq<NodeImpl>
    var toRetract: seq<NodeImpl>
    var commands: seq<NodeImpl>
    var aborts: seq<NodeImpl>

    constructor ()
      ensures candidates == pending == stateChanges == finishedRoots == []
      ensures toExecute == toRetract == commands == aborts == []
    {
      candidates, pending, stateChanges, finishedRoots := [], [], [], [];
      toExecute, toRetract, commands, aborts := [], [], [], [];
    }

    /** The lists that committing a move changes. */
    ghost function Lists(): ExecLists
      reads this
    {
      ExecLists(candidates, finishedRoots, toExecute, toRetract, commands, aborts)
    }

    // ----- the queues -----

    method GetCandidateNode() returns (node: NodeImpl)
      requires candidates != []
      modifies this`candidates, First(candidates)`queueStatus
      ensures node == old(candidates[0]) && candidates == old(candidates[1..]) && node.queueStatus == QueueNone
    {
      node, candidates := candidates[0], candidates[1..];
      node.queueStatus := QueueNone;
    }

    /** Any status but NONE is an internal error, and changes nothing. */
    method AddStateChangeNode(node: NodeImpl) returns (error: bool)
      modifies this`stateChanges, node`queueStatus
      ensures error <==> old(node.queueStatus) != QueueNone
      ensures node.queueStatus == if error then old(node.queueStatus) else QueueTransition
      ensures stateChanges == old(stateChanges) + if error then [] else [node]
    {
      error := node.queueStatus != QueueNone;
      if !error {
        node.queueStatus := QueueTransition;
        stateChanges := stateChanges + [node];
      }
    }

    method AddPendingNode(node: NodeImpl)
      modifies this`pending, node`queueStatus
      ensures node.queueStatus == QueuePendingTry && pending == WalkedQueue.Inserted(old(pending), node, PRIORITY)
    {
      node.queueStatus := QueuePendingTry;
      pending := WalkedQueue.Inserted(pending, node, PRIORITY);
    }

    /** Giving up the places in the waiting lists is ReleaseReservations. */
    method RemovePendingNode(node: NodeImpl)
      modifies this`pending, node`queueStatus
      ensures node.queueStatus == QueueNone && pending == WalkedQueue.Without(old(pending), node)
    {
      pending := WalkedQueue.Without(pending, node);
      node.queueStatus := QueueNone;
    }

    /** Takes the next node off the queue of decided moves; one that was notified while it
        was queued becomes a candidate again. */
    method GetStateChangeNode() returns (node: NodeImpl)
      requires stateChanges != []
      modifies this`stateChanges, this`candidates, First(stateChanges)`queueStatus
      ensures node == old(stateChanges[0]) && stateChanges == old(stateChanges[1..])
      ensures node.queueStatus ==
        if old(stateChanges[0].queueStatus) == QueueTransitionCheck then QueueCheck else QueueNone
      ensures candidates ==
        old(candidates) + if old(stateChanges[0].queueStatus) == QueueTransitionCheck then [node] else []
    {
      node, stateChanges := stateChanges[0], stateChanges[1..];
      var was := node.queueStatus;
      node.queueStatus := QueueNone;
      if was == QueueTransitionCheck {
        var _ := node.Notify(this);
      }
    }

    // ----- the turns of the quiescence loop -----

    /** The node is in the list that its new queue value names, and in no other by this turn. */
    twostate predicate Placed(node: NodeImpl, queue: Queue)
      reads this
    {
      && stateChanges == old(stateChanges) + (if queue == StateChange then [node] else [])
      && pending == PendingAfter(old(pending), node, queue)
    }

    /** The next candidate is evaluated, and queued if it can move. */
    method CheckNext(c: Conds, needsResources: bool) returns (node: NodeImpl, error: bool)
      requires candidates != [] && candidates[0] !in pending
      modifies this`candidates, this`stateChanges, this`pending, First(candidates)`queueStatus,
               First(candidates)`nextState, First(candidates)`nextOutcome, First(candidates)`nextFailure
      ensures node == old(candidates[0]) && candidates == old(candidates[1..]) && !error
      ensures var m := Checked(old(candidates[0].Record(Candidates)),
                               Dest(node.kind, node.state, node.failure, node.ParentNow(), c), needsResources);
        node.Record(m.queue) == m && Placed(node, m.queue)
    {
      node := GetCandidateNode();
      error := false;
      NotPending(pending, node);
      ghost var n := node.Record(NoQueue);
      var canTransition := node.GetDestState(c);
      assert node.Record(NoQueue) == Decided(n, Dest(node.kind, node.state, node.failure, node.ParentNow(), c));
      if canTransition {
        if node.nextState == Some(Executing) && needsResources {
          AddPendingNode(node);
        } else {
          error := AddStateChangeNode(node);
        }
      }
    }

    /** A pending node whose conditions have changed is evaluated again; it stays pending only if it
        is still to execute. */
    method Reconsider(node: NodeImpl, c: Conds) returns (stays: bool)
      requires node in pending
      modifies this`stateChanges, this`pending, node`queueStatus, node`nextState, node`nextOutcome, node`nextFailure
      ensures var n, d := old(node.Record(PendingQueue)),
                          Dest(node.kind, node.state, node.failure, node.ParentNow(), c);
        var m := Reconsidered(n, d);
        node.Record(m.queue) == m && Placed(node, m.queue) && stays == (m.queue == PendingQueue)
    {
      ghost var n, d := node.Record(PendingQueue), Dest(node.kind, node.state, node.failure, node.ParentNow(), c);
      var canTransition := node.GetDestState(c);
      assert node.Record(PendingQueue) == Decided(n, d);
      if !canTransition {
        RemovePendingNode(node);
        return false;
      }
      if node.nextState != Some(Executing) {
        RemovePendingNode(node);
        var _ := AddStateChangeNode(node);
        return false;
      }
      return true;
    }

    /** Should the pending node try to acquire its resources?  In the PENDING_CHECK arm the
        status is set to PENDING whatever was done with the node before. */
    method ResourceCheckEligible(node: NodeImpl, c: Conds) returns (eligible: bool)
      requires node in pending && PendingStatus(node.queueStatus)
      modifies this`stateChanges, this`pending, node`queueStatus, node`nextState, node`nextOutcome, node`nextFailure
      ensures var n, d := old(node.Record(PendingQueue)),
                          Dest(node.kind, node.state, node.failure, node.ParentNow(), c);
        var m := LookedAt(n, d);
        eligible == Attempts(n, d) && node.Record(m.queue) == m && Placed(node, m.queue)
    {
      match node.queueStatus {
        case QueuePendingCheck =>
          var _ := Reconsider(node, c);
          node.queueStatus := QueuePending;
          return false;
        case QueuePendingTryCheck =>
          eligible := Reconsider(node, c);
        case QueuePendingTry => return true;
        case QueuePending => return false;
      }
    }

    /** The next decided move is committed: the node's record, its children, and what is
        queued are those of the step system. */
    method CommitNext(ghost first: NodeImpl, rhs: Val) returns (node: NodeImpl, error: bool)
      requires stateChanges != [] && first == stateChanges[0] && first.Family() && first.Equipped()
      requires first.nextState.Some? && LegalEdge(first.kind, first.state, first.nextState.value)
      requires StateOf(first.kind, first.state) && StateOf(first.kind, first.nextState.value)
      modifies this`candidates, this`stateChanges, this`finishedRoots,
               this`toExecute, this`toRetract, this`commands, this`aborts,
               first`active, first`ack, first`aborted, first`outcome, first`failure, first`state, first`queueStatus,
               first`fixedValue, first`nextState, first`nextOutcome, first`nextFailure, first`locals, first`action,
               first.dest`saved, first.children`queueStatus
      ensures node == first && stateChanges == old(stateChanges[1..]) && !error
      ensures Told(first.children, old(Concerned(first.children, first.nextState.value)), old(Statuses(first.children)))
      ensures HasCommitted(
        Waited(old(first.View(this, StateChange)), first), first.View(this, first.QueueAfter(first.state)), first,
        first.conditions, old(first.JoiningFor(first.nextState.value)), rhs)
    {
      ghost var v, to := first.View(this, StateChange), first.nextState.value;
      ghost var told := Concerned(first.children, to);
      ghost var joining, was := first.JoiningFor(to), Statuses(first.children);
      node := TakeNext(first);
      assert told == Concerned(first.children, to) && was == Statuses(first.children);
      error := CommitTaken(node, v, told, joining, was, rhs);
    }

    method TakeNext(ghost first: NodeImpl) returns (node: NodeImpl)
      requires stateChanges != [] && first == stateChanges[0]
      modifies this`stateChanges, this`candidates, first`queueStatus
      ensures node == first && stateChanges == old(stateChanges[1..])
      ensures first.View(this, StateChange) == TakenOff(old(first.View(this, StateChange)), first)
    {
      node := GetStateChangeNode();
    }

    /** The node has been taken off the queue; v is the scene before that. */
    method CommitTaken(node: NodeImpl, ghost v: Scene, ghost told: set<NodeImpl>, ghost joining: seq<NodeImpl>,
                       ghost was: seq<QueueStatus>, rhs: Val)
        returns (error: bool)
      requires node.Family() && node.Equipped() && v.node.next.Some?
      requires node.View(this, StateChange) == TakenOff(v, node)
      requires LegalEdge(node.kind, v.node.state, v.node.next.value)
      requires StateOf(node.kind, v.node.state) && StateOf(node.kind, v.node.next.value)
      requires node.Concerns(v.node.next.value, told, joining, was)
      modifies node`active, node`ack, node`aborted, node`outcome, node`failure, node`state, node`queueStatus,
               node`fixedValue, node`nextState, node`nextOutcome, node`nextFailure, node`locals, node`action,
               node.dest`saved, node.children`queueStatus, this`candidates, this`finishedRoots,
               this`toExecute, this`toRetract, this`commands, this`aborts
      ensures !error && Told(node.children, told, was)
      ensures HasCommitted(Waited(v, node), node.View(this, node.QueueAfter(node.state)), node,
                           node.conditions, joining, rhs)
    {
      assert node.Record(StateChange) == TakenOff(v, node).node;
      error := node.Transition(this, rhs);
      PoppedScene(v, node.View(this, node.QueueAfter(node.state)), node, node.conditions, joining, rhs);
    }

    /** No node is queued twice and no variable is shared, as the reservations ensure. */
    ghost predicate Exclusive()
      reads this`toExecute, this`toRetract
    {
      && Distinct(toExecute) && Distinct(toRetract)
      && (forall n, m | n in toExecute && m in toRetract :: n != m && n.dest != m.dest)
    }

    /** Assignments are executed in the order they were queued, then the retractions; those
        whose flag is raised by it are notified. */
    method PerformAssignments()
      requires Exclusive()
      modifies this`candidates, this`toExecute, this`toRetract, toExecute`ack, toRetract`aborted,
               toExecute`queueStatus, toRetract`queueStatus,
               (set n | n in toExecute :: n.dest)`value, (set n | n in toRetract :: n.dest)`value
      ensures toExecute == toRetract == []
      ensures Executed(old(toExecute), old(AckDue(toExecute)), old(AckRaised(toExecute)), old(Statuses(toExecute)))
      ensures Retracted(old(toRetract), old(AbortDue(toRetract)), old(AbortRaised(toRetract)), old(Statuses(toRetract)))
      ensures candidates == old(candidates)
        + old(Joining(toExecute, AckDue(toExecute), Statuses(toExecute), |toExecute|))
        + old(Joining(toRetract, AbortDue(toRetract), Statuses(toRetract), |toRetract|))
    {
      PerformBoth(toExecute, AckDue(toExecute), AckRaised(toExecute), Statuses(toExecute),
                  toRetract, AbortDue(toRetract), AbortRaised(toRetract), Statuses(toRetract));
      toExecute, toRetract := [], [];
    }

    method PerformBoth(nodes: seq<NodeImpl>, ghost due: set<NodeImpl>, ghost acked: set<NodeImpl>,
                       ghost was: seq<QueueStatus>, others: seq<NodeImpl>, ghost undue: set<NodeImpl>,
                       ghost aborted: set<NodeImpl>, ghost before: seq<QueueStatus>)
      requires Distinct(nodes) && Distinct(others)
      requires forall n, m | n in nodes && m in others :: n != m && n.dest != m.dest
      requires due == AckDue(nodes) && acked == AckRaised(nodes) && was == Statuses(nodes)
      requires undue == AbortDue(others) && aborted == AbortRaised(others) && before == Statuses(others)
      modifies this`candidates, nodes`ack, others`aborted, nodes`queueStatus, others`queueStatus,
               (set n | n in nodes :: n.dest)`value, (set n | n in others :: n.dest)`value
      ensures Executed(nodes, due, acked, was) && Retracted(others, undue, aborted, before)
      ensures candidates ==
        old(candidates) + Joining(nodes, due, was, |nodes|) + Joining(others, undue, before, |others|)
    {
      ExecuteBeside(nodes, due, acked, was, others, undue, aborted, before);
      RetractBeside(others, undue, aborted, before, nodes, due, acked, was);
    }

    /** The assignments to be retracted are not affected. */
    method ExecuteBeside(nodes: seq<NodeImpl>, ghost told: set<NodeImpl>, ghost acked: set<NodeImpl>,
                         ghost was: seq<QueueStatus>, ghost others: seq<NodeImpl>, ghost due: set<NodeImpl>,
                         ghost raised: set<NodeImpl>, ghost before: seq<QueueStatus>)
      requires Distinct(nodes) && forall n, m | n in nodes && m in others :: n != m && n.dest != m.dest
      requires told == AckDue(nodes) && acked == AckRaised(nodes) && was == Statuses(nodes)
      requires due == AbortDue(others) && raised == AbortRaised(others) && before == Statuses(others)
      modifies this`candidates, nodes`ack, nodes`queueStatus, (set n | n in nodes :: n.dest)`value
      ensures Executed(nodes, told, acked, was)
      ensures due == AbortDue(others) && raised == AbortRaised(others) && before == Statuses(others)
      ensures candidates == old(candidates) + Joining(nodes, told, was, |nodes|)
    {
      ExecuteAll(nodes, told, acked, was);
    }

    /** The assignments executed before are not affected. */
    method RetractBeside(nodes: seq<NodeImpl>, ghost told: set<NodeImpl>, ghost aborted: set<NodeImpl>,
                         ghost was: seq<QueueStatus>, ghost done: seq<NodeImpl>, ghost due: set<NodeImpl>,
                         ghost raised: set<NodeImpl>, ghost before: seq<QueueStatus>)
      requires Distinct(nodes) && forall n, m | n in done && m in nodes :: n != m && n.dest != m.dest
      requires told == AbortDue(nodes) && aborted == AbortRaised(nodes) && was == Statuses(nodes)
      requires Executed(done, due, raised, before)
      modifies this`candidates, nodes`aborted, nodes`queueStatus, (set n | n in nodes :: n.dest)`value
      ensures Executed(done, due, raised, before) && Retracted(nodes, told, aborted, was)
      ensures candidates == old(candidates) + Joining(nodes, told, was, |nodes|)
    {
      RetractAll(nodes, told, aborted, was);
    }

    method ExecuteAll(nodes: seq<NodeImpl>, ghost told: set<NodeImpl>, ghost acked: set<NodeImpl>,
                      ghost was: seq<QueueStatus>)
      requires Distinct(nodes)
      requires told == AckDue(nodes) && acked == AckRaised(nodes) && was == Statuses(nodes)
      modifies this`candidates, nodes`ack, nodes`queueStatus, (set n | n in nodes :: n.dest)`value
      ensures Executed(nodes, told, acked, was)
      ensures candidates == old(candidates) + Joining(nodes, told, was, |nodes|)
    {
      JoinedInOrder(candidates, nodes, told, was, |nodes|);
      ExecuteInOrder(nodes, told, acked, was);
    }

    method ExecuteInOrder(nodes: seq<NodeImpl>, ghost told: set<NodeImpl>, ghost acked: set<NodeImpl>,
                          ghost was: seq<QueueStatus>)
      requires Distinct(nodes) && ExecutedUpTo(nodes, 0, told, acked, was)
      modifies this`candidates, nodes`ack, nodes`queueStatus, (set n | n in nodes :: n.dest)`value
      ensures ExecutedUpTo(nodes, |nodes|, told, acked, was)
      ensures candidates == JoinedBy(old(candidates), nodes, told, was, |nodes|)
    {
      ghost var before := candidates;
      var i := 0;
      while i < |nodes|
        invariant 0 <= i <= |nodes| && ExecutedUpTo(nodes, i, told, acked, was)
        invariant candidates == JoinedBy(before, nodes, told, was, i)
      {
        ExecuteNext(nodes, told, acked, was, i);
        i := i + 1;
      }
    }

    method ExecuteNext(nodes: seq<NodeImpl>, ghost told: set<NodeImpl>, ghost acked: set<NodeImpl>,
                       ghost was: seq<QueueStatus>,
                       i: nat)
      requires i < |nodes| && Distinct(nodes) && ExecutedUpTo(nodes, i, told, acked, was)
      modifies this`candidates, nodes`ack, nodes`queueStatus, (set n | n in nodes :: n.dest)`value
      ensures ExecutedUpTo(nodes, i + 1, told, acked, was)
      ensures candidates == old(candidates) + OneJoining(nodes[i], told, was[i])
    {
      nodes[i].ExecuteAssignment(this);
    }

    method RetractAll(nodes: seq<NodeImpl>, ghost told: set<NodeImpl>, ghost aborted: set<NodeImpl>,
                      ghost was: seq<QueueStatus>)
      requires Distinct(nodes)
      requires told == AbortDue(nodes) && aborted == AbortRaised(nodes) && was == Statuses(nodes)
      modifies this`candidates, nodes`aborted, nodes`queueStatus, (set n | n in nodes :: n.dest)`value
      ensures Retracted(nodes, told, aborted, was)
      ensures candidates == old(candidates) + Joining(nodes, told, was, |nodes|)
    {
      JoinedInOrder(candidates, nodes, told, was, |nodes|);
      RetractInOrder(nodes, told, aborted, was);
    }

    method RetractInOrder(nodes: seq<NodeImpl>, ghost told: set<NodeImpl>, ghost aborted: set<NodeImpl>,
                          ghost was: seq<QueueStatus>)
      requires Distinct(nodes) && RetractedUpTo(nodes, 0, told, aborted, was)
      modifies this`candidates, nodes`aborted, nodes`queueStatus, (set n | n in nodes :: n.dest)`value
      ensures RetractedUpTo(nodes, |nodes|, told, aborted, was)
      ensures candidates == JoinedBy(old(candidates), nodes, told, was, |nodes|)
    {
      ghost var before := candidates;
      var i := 0;
      while i < |nodes|
        invariant 0 <= i <= |nodes| && RetractedUpTo(nodes, i, told, aborted, was)
        invariant candidates == JoinedBy(before, nodes, told, was, i)
      {
        RetractNext(nodes, told, aborted, was, i);
        i := i + 1;
      }
    }

    method RetractNext(nodes: seq<NodeImpl>, ghost told: set<NodeImpl>, ghost aborted: set<NodeImpl>,
                       ghost was: seq<QueueStatus>,
                       i: nat)
      requires i < |nodes| && Distinct(nodes) && RetractedUpTo(nodes, i, told, aborted, was)
      modifies this`candidates, nodes`aborted, nodes`queueStatus, (set n | n in nodes :: n.dest)`value
      ensures RetractedUpTo(nodes, i + 1, told, aborted, was)
      ensures candidates == old(candidates) + OneJoining(nodes[i], told, was[i])
    {
      nodes[i].RetractAssignment(this);
    }
  }

  /** No node twice, and no variable. */
  ghost predicate Distinct(nodes: seq<NodeImpl>) {
    forall i, j | 0 <= i < j < |nodes| :: nodes[i] != nodes[j] && nodes[i].dest != nodes[j].dest
  }

  /** The nodes whose acknowledgement is active and not yet raised, and those where it is raised. */
  ghost function AckDue(nodes: seq<NodeImpl>): set<NodeImpl>
    reads nodes`active, nodes`ack
  {
    set n | n in nodes && n.active(ActionComplete) > 0 && !n.ack
  }

  ghost function AckRaised(nodes: seq<NodeImpl>): set<NodeImpl>
    reads nodes`ack
  {
    set n | n in nodes && n.ack
  }

  ghost function AbortDue(nodes: seq<NodeImpl>): set<NodeImpl>
    reads nodes`active, nodes`aborted
  {
    set n | n in nodes && n.active(AbortComplete) > 0 && !n.aborted
  }

  ghost function AbortRaised(nodes: seq<NodeImpl>): set<NodeImpl>
    reads nodes`aborted
  {
    set n | n in nodes && n.aborted
  }

  /** The first n of the nodes have stored their values and been acknowledged. */
  ghost predicate ExecutedUpTo(nodes: seq<NodeImpl>, n: int, told: set<NodeImpl>, acked: set<NodeImpl>,
                               was: seq<QueueStatus>)
    reads nodes`active, nodes`ack, nodes`queueStatus, nodes`fixedValue, (set m | m in nodes :: m.dest)`value
  {
    && 0 <= n <= |nodes| == |was|
    && (forall j | 0 <= j < n ::
          && nodes[j].dest.value == nodes[j].fixedValue
          && nodes[j].ack == (nodes[j] in told || nodes[j] in acked)
          && nodes[j].queueStatus == if nodes[j] in told then NotifiedStatus(was[j]) else was[j])
    && (forall j | n <= j < |nodes| ::
          && nodes[j].ack == (nodes[j] in acked) && nodes[j].queueStatus == was[j]
          && (nodes[j] in told <==> nodes[j].active(ActionComplete) > 0 && !nodes[j].ack))
  }

  ghost predicate Executed(nodes: seq<NodeImpl>, told: set<NodeImpl>, acked: set<NodeImpl>, was: seq<QueueStatus>)
    reads nodes`active, nodes`ack, nodes`queueStatus, nodes`fixedValue, (set m | m in nodes :: m.dest)`value
  {
    ExecutedUpTo(nodes, |nodes|, told, acked, was)
  }

  /** The first n of the nodes have restored their variables and been told so. */
  ghost predicate RetractedUpTo(nodes: seq<NodeImpl>, n: int, told: set<NodeImpl>, aborted: set<NodeImpl>,
                                was: seq<QueueStatus>)
    reads nodes`active, nodes`aborted, nodes`queueStatus, (set m | m in nodes :: m.dest)`value,
      (set m | m in nodes :: m.dest)`saved
  {
    && 0 <= n <= |nodes| == |was|
    && (forall j | 0 <= j < n ::
          && nodes[j].dest.value == nodes[j].dest.saved
          && nodes[j].aborted == (nodes[j] in told || nodes[j] in aborted)
          && nodes[j].queueStatus == if nodes[j] in told then NotifiedStatus(was[j]) else was[j])
    && (forall j | n <= j < |nodes| ::
          && nodes[j].aborted == (nodes[j] in aborted) && nodes[j].queueStatus == was[j]
          && (nodes[j] in told <==> nodes[j].active(AbortComplete) > 0 && !nodes[j].aborted))
  }

  ghost predicate Retracted(nodes: seq<NodeImpl>, told: set<NodeImpl>, aborted: set<NodeImpl>, was: seq<QueueStatus>)
    reads nodes`active, nodes`aborted, nodes`queueStatus, (set m | m in nodes :: m.dest)`value,
      (set m | m in nodes :: m.dest)`saved
  {
    RetractedUpTo(nodes, |nodes|, told, aborted, was)
  }

  datatype ExecLists = ExecLists(
    candidates: seq<NodeImpl>,
    finishedRoots: seq<NodeImpl>,
    toExecute: seq<NodeImpl>,
    toRetract: seq<NodeImpl>,
    commands: seq<NodeImpl>,
    aborts: seq<NodeImpl>)

  /** Two records that agree, the activation counts compared slot by slot. */
  ghost predicate SameRecord(n: NodeRec, m: NodeRec) {
    && n == m.(active := n.active)
    && forall k: CondIdx :: n.active(k) == m.active(k)
  }

  class NodeImpl {
    const id: nat
    const kind: Kind
    const parent: NodeImpl?
    const dest: UserVariable
    const priority: int
    var children: seq<NodeImpl>
    var conditions: Slots
    var active: CondIdx -> int
    var state: NodeState
    var outcome: Outcome
    var failure: FailureType
    var nextState: Option<NodeState>
    var nextOutcome: Outcome
    var nextFailure: FailureType
    var queueStatus: QueueStatus
    var ack: bool
    var aborted: bool
    var fixedValue: Val

    /** How often the local variables, and the assignment or command, are activated. */
    var locals: int
    var action: int

    constructor (id: nat, kind: Kind, parent: NodeImpl?, dest: UserVariable, priority: int, own: Slots)
      ensures this.id == id && this.kind == kind && this.parent == parent && this.dest == dest && conditions == own
      ensures this.priority == priority
      ensures SameRecord(Record(NoQueue), FreshNode(false)) && locals == action == 0
    {
      this.id, this.kind, this.parent, this.dest, this.priority := id, kind, parent, dest, priority;
      children, conditions, active := [], own, k => 0;
      state, outcome, failure := Inactive, NoOutcome, NoFailure;
      nextState, nextOutcome, nextFailure := None, NoOutcome, NoFailure;
      queueStatus, ack, aborted, fixedValue := QueueNone, false, false, None;
      locals, action := 0, 0;
    }

    /** The object as a value, given the queue it is in. */
    ghost function Record(queue: Queue): NodeRec
      reads this
    {
      NodeRec(state, outcome, failure, nextState, nextOutcome, nextFailure, queueStatus, queue,
              active, ack, aborted, fixedValue)
    }

    ghost function ParentNow(): Option<NodeState>
      reads this, parent
    {
      if parent == null then None else Some(parent.state)
    }

    // ----- notification -----

    /** Reports whether the status was one that notify has no arm for. */
    method Notify(exec: PlexilExec) returns (error: bool)
      modifies this`queueStatus, exec`candidates
      ensures error <==> !NotifyOk(old(queueStatus))
      ensures queueStatus == NotifiedStatus(old(queueStatus))
      ensures exec.candidates == old(exec.candidates) + if old(queueStatus) == QueueNone then [this] else []
    {
      error := false;
      match queueStatus {
        case QueueNone =>
          queueStatus := QueueCheck;
          exec.candidates := exec.candidates + [this];
        case QueuePending => queueStatus := QueuePendingCheck;
        case QueuePendingTry => queueStatus := QueuePendingTryCheck;
        case QueueTransition => queueStatus := QueueTransitionCheck;
        case QueueCheck =>
        case QueuePendingCheck =>
        case QueueTransitionCheck =>
        case QueueDelete => error := true;
        case QueuePendingTryCheck => error := true;
      }
    }

    method NotifyResourceAvailable()
      modifies this`queueStatus
      ensures forall q: Queue :: Record(q) == ResourceAvailable(old(Record(q)))
      ensures queueStatus == ResourceAvailable(old(Record(NoQueue))).status
    {
      match queueStatus {
        case QueuePendingTry =>
        case QueuePending => queueStatus := QueuePendingTry;
        case QueuePendingCheck => queueStatus := QueuePendingTryCheck;
        case _ =>
      }
    }

    // ----- where to go next -----

    /** The decision is stored in the m_next fields. */
    twostate predicate Caches(d: Decision)
      reads this
    {
      && nextState == (if d.Go? then Some(d.to) else None)
      && nextOutcome == (if d.Go? && d.outcome != NoOutcome then d.outcome else old(nextOutcome))
      && nextFailure == (if d.Go? && d.failure != NoFailure then d.failure else old(nextFailure))
    }

    /** Evaluates the conditions c and the parent's state, as the node's type and state demand. */
    method GetDestState(c: Conds) returns (changed: bool)
      modifies this`nextState, this`nextOutcome, this`nextFailure
      ensures var d := Dest(kind, state, failure, ParentNow(), c);
        changed == d.Go? && forall q: Queue :: Record(q) == Decided(old(Record(q)), d)
    {
      nextState := None;
      match state {
        case Inactive => changed := GetDestStateFromInactive(c);
        case Waiting => changed := GetDestStateFromWaiting(c);
        case Executing =>
          match kind {
            case Empty => changed := GetDestStateFromExecutingEmpty(c);
            case Assignment => changed := GetDestStateFromExecutingAssignment(c);
            case List => changed := GetDestStateFromExecutingList(c);
            case Command => changed := GetDestStateFromExecutingCommand(c);
          }
        case Finishing =>
          match kind {
            case List => changed := GetDestStateFromFinishingList(c);
            case Command => changed := GetDestStateFromFinishingCommand(c);
            case _ => changed := false;
          }
        case Finished => changed := GetDestStateFromFinished();
        case Failing =>
          match kind {
            case Assignment => changed := GetDestStateFromFailingAssignment(c);
            case List => changed := GetDestStateFromFailingList(c);
            case Command => changed := GetDestStateFromFailingCommand(c);
            case Empty => changed := false;
          }
        case IterationEnded => changed := GetDestStateFromIterationEnded(c);
      }
    }

    method GetDestStateFromInactive(c: Conds) returns (changed: bool)
      requires nextState == None
      modifies this`nextState, this`nextOutcome, this`nextFailure
      ensures changed == DestFromInactive(ParentNow(), c).Go? && Caches(DestFromInactive(ParentNow(), c))
    {
      if parent != null {
        match parent.state {
          case Finished =>
            nextState, nextOutcome := Some(Finished), Skipped;
            return true;
          case Executing =>
            if KnownTrue(c, AncestorExit) {
              nextState, nextOutcome := Some(Finished), Skipped;
              return true;
            }
            if KnownFalse(c, AncestorInvariant) {
              nextState, nextOutcome := Some(Finished), Skipped;
              return true;
            }
            if KnownTrue(c, AncestorEnd) {
              nextState, nextOutcome := Some(Finished), Skipped;
              return true;
            }
            nextState := Some(Waiting);
            return true;
          case _ => return false;
        }
      } else {
        nextState := Some(Waiting);
        return true;
      }
    }

    method GetDestStateFromWaiting(c: Conds) returns (changed: bool)
      requires nextState == None
      modifies this`nextState, this`nextOutcome, this`nextFailure
      ensures changed == DestFromWaiting(c).Go? && Caches(DestFromWaiting(c))
    {
      if KnownTrue(c, AncestorExit) {
        nextState, nextOutcome := Some(Finished), Skipped;
        return true;
      }
      if KnownTrue(c, Exit) {
        nextState, nextOutcome := Some(Finished), Skipped;
        return true;
      }
      if KnownFalse(c, AncestorInvariant) {
        nextState, nextOutcome := Some(Finished), Skipped;
        return true;
      }
      if KnownTrue(c, AncestorEnd) {
        nextState, nextOutcome := Some(Finished), Skipped;
        return true;
      }
      if KnownTrue(c, Skip) {
        nextState, nextOutcome := Some(Finished), Skipped;
        return true;
      }
      if Unmet(c, Start) {
        return false;
      }
      if Unmet(c, Pre) {
        nextState, nextOutcome, nextFailure := Some(IterationEnded), Outcome.Failure, PreConditionFailed;
        return true;
      }
      nextState := Some(Executing);
      return true;
    }

    method GetDestStateFromExecutingEmpty(c: Conds) returns (changed: bool)
      requires nextState == None
      modifies this`nextState, this`nextOutcome, this`nextFailure
      ensures changed == DestFromExecuting(Empty, c).Go? && Caches(DestFromExecuting(Empty, c))
    {
      if KnownTrue(c, AncestorExit) {
        nextState, nextOutcome, nextFailure := Some(Finished), Interrupted, ParentExited;
        return true;
      }
      if KnownTrue(c, Exit) {
        nextState, nextOutcome, nextFailure := Some(IterationEnded), Interrupted, Exited;
        return true;
      }
      if KnownFalse(c, AncestorInvariant) {
        nextState, nextOutcome, nextFailure := Some(Finished), Outcome.Failure, ParentFailed;
        return true;
      }
      if KnownFalse(c, Invariant) {
        nextState, nextOutcome, nextFailure := Some(IterationEnded), Outcome.Failure, InvariantConditionFailed;
        return true;
      }
      if Unmet(c, End) {
        return false;
      }
      nextState := Some(IterationEnded);
      if Unmet(c, Post) {
        nextOutcome, nextFailure := Outcome.Failure, PostConditionFailed;
      } else {
        nextOutcome := Success;
      }
      return true;
    }

    method GetDestStateFromExecutingAssignment(c: Conds) returns (changed: bool)
      requires nextState == None
      modifies this`nextState, this`nextOutcome, this`nextFailure
      ensures changed == DestFromExecuting(Assignment, c).Go? && Caches(DestFromExecuting(Assignment, c))
    {
      if !KnownTrue(c, ActionComplete) {
        return false;
      }
      if KnownTrue(c, AncestorExit) {
        nextState, nextOutcome, nextFailure := Some(Failing), Interrupted, ParentExited;
        return true;
      }
      if KnownTrue(c, Exit) {
        nextState, nextOutcome, nextFailure := Some(Failing), Interrupted, Exited;
        return true;
      }
      if KnownFalse(c, AncestorInvariant) {
        nextState, nextOutcome, nextFailure := Some(Failing), Outcome.Failure, ParentFailed;
        return true;
      }
      if KnownFalse(c, Invariant) {
        nextState, nextOutcome, nextFailure := Some(Failing), Outcome.Failure, InvariantConditionFailed;
        return true;
      }
      if Unmet(c, End) {
        return false;
      }
      nextState := Some(IterationEnded);
      if Unmet(c, Post) {
        nextOutcome, nextFailure := Outcome.Failure, PostConditionFailed;
      } else {
        nextOutcome := Success;
      }
      return true;
    }

    method GetDestStateFromExecutingList(c: Conds) returns (changed: bool)
      requires nextState == None
      modifies this`nextState, this`nextOutcome, this`nextFailure
      ensures changed == DestFromExecuting(List, c).Go? && Caches(DestFromExecuting(List, c))
    {
      if KnownTrue(c, AncestorExit) {
        nextState, nextOutcome, nextFailure := Some(Failing), Interrupted, ParentExited;
        return true;
      }
      if KnownTrue(c, Exit) {
        nextState, nextOutcome, nextFailure := Some(Failing), Interrupted, Exited;
        return true;
      }
      if KnownFalse(c, AncestorInvariant) {
        nextState, nextOutcome, nextFailure := Some(Failing), Outcome.Failure, ParentFailed;
        return true;
      }
      if KnownFalse(c, Invariant) {
        nextState, nextOutcome, nextFailure := Some(Failing), Outcome.Failure, InvariantConditionFailed;
        return true;
      }
      if Unmet(c, End) {
        return false;
      }
      nextState := Some(Finishing);
      return true;
    }

    method GetDestStateFromExecutingCommand(c: Conds) returns (changed: bool)
      requires nextState == None
      modifies this`nextState, this`nextOutcome, this`nextFailure
      ensures changed == DestFromExecuting(Command, c).Go? && Caches(DestFromExecuting(Command, c))
    {
      if KnownTrue(c, AncestorExit) {
        nextState, nextOutcome, nextFailure := Some(Failing), Interrupted, ParentExited;
        return true;
      }
      if KnownTrue(c, Exit) {
        nextState, nextOutcome, nextFailure := Some(Failing), Interrupted, Exited;
        return true;
      }
      if KnownFalse(c, AncestorInvariant) {
        nextState, nextOutcome, nextFailure := Some(Failing), Outcome.Failure, ParentFailed;
        return true;
      }
      if KnownFalse(c, Invariant) {
        nextState, nextOutcome, nextFailure := Some(Failing), Outcome.Failure, InvariantConditionFailed;
        return true;
      }
      if Unmet(c, End) {
        return false;
      }
      nextState := Some(Finishing);
      return true;
    }

    method GetDestStateFromFinishingList(c: Conds) returns (changed: bool)
      requires nextState == None
      modifies this`nextState, this`nextOutcome, this`nextFailure
      ensures changed == DestFromFinishing(List, c).Go? && Caches(DestFromFinishing(List, c))
    {
      if KnownTrue(c, AncestorExit) {
        nextState, nextOutcome, nextFailure := Some(Failing), Interrupted, ParentExited;
        return true;
      }
      if KnownTrue(c, Exit) {
        nextState, nextOutcome, nextFailure := Some(Failing), Interrupted, Exited;
        return true;
      }
      if KnownFalse(c, AncestorInvariant) {
        nextState, nextOutcome, nextFailure := Some(Failing), Outcome.Failure, ParentFailed;
        return true;
      }
      if KnownFalse(c, Invariant) {
        nextState, nextOutcome, nextFailure := Some(Failing), Outcome.Failure, InvariantConditionFailed;
        return true;
      }
      if KnownTrue(c, ActionComplete) {
        nextState := Some(IterationEnded);
        if Unmet(c, Post) {
          nextOutcome, nextFailure := Outcome.Failure, PostConditionFailed;
        } else {
          nextOutcome := Success;
        }
        return true;
      }
      return false;
    }

    method GetDestStateFromFinishingCommand(c: Conds) returns (changed: bool)
      requires nextState == None
      modifies this`nextState, this`nextOutcome, this`nextFailure
      ensures changed == DestFromFinishing(Command, c).Go? && Caches(DestFromFinishing(Command, c))
    {
      if KnownTrue(c, AncestorExit) {
        nextState, nextOutcome, nextFailure := Some(Failing), Interrupted, ParentExited;
        return true;
      }
      if KnownTrue(c, Exit) {
        nextState, nextOutcome, nextFailure := Some(Failing), Interrupted, Exited;
        return true;
      }
      if KnownFalse(c, AncestorInvariant) {
        nextState, nextOutcome, nextFailure := Some(Failing), Outcome.Failure, ParentFailed;
        return true;
      }
      if KnownFalse(c, Invariant) {
        nextState, nextOutcome, nextFailure := Some(Failing), Outcome.Failure, InvariantConditionFailed;
        return true;
      }
      if KnownTrue(c, ActionComplete) {
        nextState := Some(IterationEnded);
        if Unmet(c, Post) {
          nextOutcome, nextFailure := Outcome.Failure, PostConditionFailed;
        } else {
          nextOutcome := Success;
        }
        return true;
      }
      return false;
    }

    method GetDestStateFromFailingAssignment(c: Conds) returns (changed: bool)
      requires nextState == None
      modifies this`nextState
      ensures changed == DestFromFailing(Assignment, failure, c).Go? && Caches(DestFromFailing(Assignment, failure, c))
    {
      if !KnownTrue(c, AbortComplete) {
        return false;
      }
      if failure == ParentFailed {
        nextState := Some(Finished);
        return true;
      } else if failure == ParentExited {
        nextState := Some(Finished);
        return true;
      }
      nextState := Some(IterationEnded);
      return true;
    }

    method GetDestStateFromFailingList(c: Conds) returns (changed: bool)
      requires nextState == None
      modifies this`nextState
      ensures changed == DestFromFailing(List, failure, c).Go? && Caches(DestFromFailing(List, failure, c))
    {
      if KnownTrue(c, ActionComplete) {
        if failure == ParentExited {
          nextState := Some(Finished);
          return true;
        }
        if failure == ParentFailed {
          nextState := Some(Finished);
          return true;
        }
        nextState := Some(IterationEnded);
        return true;
      }
      return false;
    }

    method GetDestStateFromFailingCommand(c: Conds) returns (changed: bool)
      requires nextState == None
      modifies this`nextState
      ensures changed == DestFromFailing(Command, failure, c).Go? && Caches(DestFromFailing(Command, failure, c))
    {
      if KnownTrue(c, AbortComplete) {
        if failure == ParentFailed {
          nextState := Some(Finished);
          return true;
        } else if failure == ParentExited {
          nextState := Some(Finished);
          return true;
        }
        nextState := Some(IterationEnded);
        return true;
      }
      return false;
    }

    method GetDestStateFromIterationEnded(c: Conds) returns (changed: bool)
      requires nextState == None
      modifies this`nextState, this`nextOutcome, this`nextFailure
      ensures changed == DestFromIterationEnded(c).Go? && Caches(DestFromIterationEnded(c))
    {
      if KnownTrue(c, AncestorExit) {
        nextState, nextOutcome, nextFailure := Some(Finished), Interrupted, ParentExited;
        return true;
      }
      if KnownFalse(c, AncestorInvariant) {
        nextState, nextOutcome, nextFailure := Some(Finished), Outcome.Failure, ParentFailed;
        return true;
      }
      if KnownTrue(c, AncestorEnd) {
        nextState := Some(Finished);
        return true;
      }
      if c(Repeat).Some? {
        if c(Repeat).value == Unknown {
          return false;
        }
        if c(Repeat).value == True {
          nextState := Some(Waiting);
          return true;
        }
      }
      nextState := Some(Finished);
      return true;
    }

    method GetDestStateFromFinished() returns (changed: bool)
      requires nextState == None
      modifies this`nextState
      ensures changed == DestFromFinished(ParentNow()).Go? && Caches(DestFromFinished(ParentNow()))
    {
      if parent != null && parent.state == Waiting {
        nextState := Some(Inactive);
        return true;
      }
      return false;
    }

    // ----- condition activations -----

    /** A slot's count goes up; activating an Assignment's flag from rest clears it. */
    method Activate(k: CondIdx)
      modifies this`active, this`ack, this`aborted
      ensures active == On(conditions, old(active), k)
      ensures ack == (old(ack) && !(Clears(k, ActionComplete) && old(active)(k) == 0))
      ensures aborted == (old(aborted) && !(Clears(k, AbortComplete) && old(active)(k) == 0))
    {
      if conditions(k).Some? {
        if kind == Assignment && active(k) == 0 {
          if k == ActionComplete { ack := false; }
          if k == AbortComplete { aborted := false; }
        }
      }
      active := On(conditions, active, k);
    }

    ghost predicate Clears(k: CondIdx, flag: CondIdx)
      reads this
    {
      kind == Assignment && k == flag && conditions(k).Some?
    }

    method Deactivate(k: CondIdx)
      modifies this`active
      ensures active == Off(conditions, old(active), k)
    {
      active := Off(conditions, active, k);
    }

    method ActivatePreSkipStartConditions()
      modifies this`active, this`ack, this`aborted
      ensures active == WaitingOn(conditions, old(active))
      ensures ack == old(ack) && aborted == old(aborted)
    {
      Activate(Pre);
      Activate(Skip);
      Activate(Start);
    }

    method DeactivatePreSkipStartConditions()
      modifies this`active
      ensures active == WaitingOff(conditions, old(active))
    {
      Deactivate(Pre);
      Deactivate(Skip);
      Deactivate(Start);
    }

    method DeactivateRunConditions()
      modifies this`active
      ensures active == RunOff(conditions, old(active))
    {
      DeactivateExitAndInvariant();
      Deactivate(End);
      Deactivate(Post);
    }

    method DeactivateExitAndInvariant()
      modifies this`active
      ensures active == ExitInvariantOff(conditions, old(active))
    {
      Deactivate(Exit);
      Deactivate(Invariant);
    }

    method DeactivateFinishingConditions()
      modifies this`active
      ensures active == FinishingOff(conditions, old(active))
    {
      DeactivateExitAndInvariant();
      Deactivate(Post);
    }

    method DeactivateChildrenConditions()
      modifies this`active
      ensures active == ChildrenOff(conditions, old(active))
    {
      Deactivate(AncestorExit);
      Deactivate(AncestorInvariant);
      Deactivate(AncestorEnd);
    }

    method DeactivateForChildren()
      modifies this`active
      ensures active == Off(conditions, ChildrenOff(conditions, old(active)), ActionComplete)
    {
      DeactivateChildrenConditions();
      Deactivate(ActionComplete);
    }

    method ActivateChildrenConditions()
      modifies this`active, this`ack, this`aborted
      ensures active == ChildrenOn(conditions, old(active))
      ensures ack == old(ack) && aborted == old(aborted)
    {
      Activate(AncestorExit);
      Activate(AncestorInvariant);
      Activate(AncestorEnd);
    }

    // ----- exit handlers -----

    method TransitionFromWaiting(to: NodeState)
      requires LegalEdge(kind, Waiting, to)
      modifies this`active
      ensures active == Left(kind, Waiting, to, conditions, old(active))
    {
      DeactivatePreSkipStartConditions();
      match to {
        case Executing =>
        case Finished => Deactivate(Exit);
        case IterationEnded => Deactivate(Exit);
      }
    }

    /** deactivateExecutable. */
    method DeactivateExecutable()
      modifies this`locals, this`action
      ensures locals == old(locals) - 1 && action == old(action) - Actions(kind)
    {
      if kind == Assignment || kind == Command {
        action := action - 1;
      }
      locals := locals - 1;
    }

    /** What the node was at work with is given up with the last of the running states. */
    twostate predicate StopsWork(from: NodeState, to: NodeState)
      reads this
    {
      var stops := if Running(from) && !Running(to) then 1 else 0;
      locals == old(locals) - stops && action == old(action) - stops * Actions(kind)
    }

    method TransitionFromExecutingEmpty(to: NodeState)
      requires kind == Empty && LegalEdge(Empty, Executing, to)
      modifies this`active, this`locals, this`action
      ensures active == Left(Empty, Executing, to, conditions, old(active)) && StopsWork(Executing, to)
    {
      DeactivateRunConditions();
      DeactivateExecutable();
    }

    method TransitionFromExecutingAssignment(to: NodeState)
      requires kind == Assignment && LegalEdge(Assignment, Executing, to)
      modifies this`active, this`locals, this`action
      ensures active == Left(Assignment, Executing, to, conditions, old(active)) && StopsWork(Executing, to)
    {
      DeactivateRunConditions();
      Deactivate(ActionComplete);
      match to {
        case Failing =>
        case IterationEnded => DeactivateExecutable();
      }
    }

    method TransitionFromExecutingList(to: NodeState)
      requires kind == List && LegalEdge(List, Executing, to)
      modifies this`active, this`ack, this`aborted
      ensures active == Left(List, Executing, to, conditions, old(active))
      ensures ack == old(ack) && aborted == old(aborted)
    {
      Deactivate(End);
      if to == Failing {
        DeactivateExitAndInvariant();
      }
      Activate(ActionComplete);
    }

    method TransitionFromExecutingCommand(to: NodeState)
      requires kind == Command && LegalEdge(Command, Executing, to)
      modifies this`active
      ensures active == Left(Command, Executing, to, conditions, old(active))
    {
      match to {
        case Failing =>
          DeactivateExitAndInvariant();
          Deactivate(End);
        case Finishing => Deactivate(End);
      }
    }

    method TransitionFromFinishingList(to: NodeState)
      requires kind == List && LegalEdge(List, Finishing, to)
      modifies this`active, this`locals, this`action
      ensures active == Left(List, Finishing, to, conditions, old(active)) && StopsWork(Finishing, to)
    {
      DeactivateFinishingConditions();
      if to == IterationEnded {
        EndList();
      }
    }

    method EndList()
      modifies this`active, this`locals, this`action
      ensures active == Off(conditions, ChildrenOff(conditions, old(active)), ActionComplete)
      ensures locals == old(locals) - 1 && action == old(action) - Actions(kind)
    {
      DeactivateForChildren();
      DeactivateExecutable();
    }

    method TransitionFromFinishingCommand(to: NodeState)
      requires kind == Command && LegalEdge(Command, Finishing, to)
      modifies this`active, this`locals, this`action
      ensures active == Left(Command, Finishing, to, conditions, old(active)) && StopsWork(Finishing, to)
    {
      if to == IterationEnded { DeactivateExecutable(); }
      DeactivateFinishingConditions();
      Deactivate(ActionComplete);
    }

    method Reset()
      modifies this`outcome, this`failure
      ensures outcome == NoOutcome && failure == NoFailure
    {
      outcome, failure := NoOutcome, NoFailure;
    }

    method TransitionFromExecuting(to: NodeState)
      requires LegalEdge(kind, Executing, to)
      modifies this`active, this`ack, this`aborted, this`locals, this`action
      ensures active == Left(kind, Executing, to, conditions, old(active)) && StopsWork(Executing, to)
      ensures ack == old(ack) && aborted == old(aborted)
    {
      match kind {
        case Empty => TransitionFromExecutingEmpty(to);
        case Assignment => TransitionFromExecutingAssignment(to);
        case List => TransitionFromExecutingList(to);
        case Command => TransitionFromExecutingCommand(to);
      }
    }

    method TransitionFromFinishing(to: NodeState)
      requires LegalEdge(kind, Finishing, to)
      modifies this`active, this`locals, this`action
      ensures active == Left(kind, Finishing, to, conditions, old(active)) && StopsWork(Finishing, to)
    {
      if kind == List {
        TransitionFromFinishingList(to);
      } else {
        TransitionFromFinishingCommand(to);
      }
    }

    method TransitionFromFailing(to: NodeState)
      requires LegalEdge(kind, Failing, to)
      modifies this`active, this`locals, this`action
      ensures active == Left(kind, Failing, to, conditions, old(active)) && StopsWork(Failing, to)
    {
      if kind == List {
        DeactivateForChildren();
      } else {
        Deactivate(AbortComplete);
      }
      DeactivateExecutable();
    }

    method TransitionFromIterationEnded(to: NodeState)
      modifies this`active, this`outcome, this`failure
      ensures active == Left(kind, IterationEnded, to, conditions, old(active))
      ensures outcome == if to == Waiting then NoOutcome else old(outcome)
      ensures failure == if to == Waiting then NoFailure else old(failure)
    {
      Deactivate(Repeat);
      if to == Waiting { Reset(); }
    }

    method LeaveState(to: NodeState)
      requires StateOf(kind, state) && LegalEdge(kind, state, to)
      modifies this`active, this`ack, this`aborted, this`outcome, this`failure, this`locals, this`action
      ensures active == Left(kind, state, to, conditions, old(active)) && StopsWork(state, to)
      ensures ack == old(ack) && aborted == old(aborted)
      ensures outcome == if Resets(state, to) then NoOutcome else old(outcome)
      ensures failure == if Resets(state, to) then NoFailure else old(failure)
    {
      match state {
        case Inactive =>
        case Waiting => TransitionFromWaiting(to);
        case Executing => TransitionFromExecuting(to);
        case Finishing => TransitionFromFinishing(to);
        case Finished => Reset();
        case Failing => TransitionFromFailing(to);
        case IterationEnded => TransitionFromIterationEnded(to);
      }
    }

    /** The exit handler of the node's type and state. */
    method TransitionFrom(to: NodeState)
      requires StateOf(kind, state) && LegalEdge(kind, state, to)
      modifies this`active, this`ack, this`aborted, this`outcome, this`failure, this`locals, this`action
      ensures active == Left(kind, state, to, conditions, old(active))
      ensures Shifts(conditions, old(active), active, LeavingDeltas(kind, state, to)) && StopsWork(state, to)
      ensures ack == old(ack) && aborted == old(aborted)
      ensures outcome == if Resets(state, to) then NoOutcome else old(outcome)
      ensures failure == if Resets(state, to) then NoFailure else old(failure)
    {
      LeftShifts(kind, state, to, conditions, active);
      LeaveState(to);
    }

    // ----- entry handlers -----

    method TransitionToWaiting()
      modifies this`active, this`ack, this`aborted
      ensures active == Entered(kind, Waiting, conditions, old(active))
      ensures ack == old(ack) && aborted == old(aborted)
    {
      Activate(Exit);
      ActivatePreSkipStartConditions();
    }

    method ActivateLocalVariables()
      modifies this`locals
      ensures locals == old(locals) + 1
    {
      locals := locals + 1;
    }

    method ActivateInvariantEndPost()
      modifies this`active, this`ack, this`aborted
      ensures active == Entered(Empty, Executing, conditions, old(active))
      ensures ack == old(ack) && aborted == old(aborted)
    {
      Activate(Invariant);
      Activate(End);
      Activate(Post);
    }

    method TransitionToExecutingDefault()
      modifies this`active, this`ack, this`aborted, this`locals
      ensures active == Entered(Empty, Executing, conditions, old(active)) && locals == old(locals) + 1
      ensures ack == old(ack) && aborted == old(aborted)
    {
      ActivateLocalVariables();
      ActivateInvariantEndPost();
    }

    method TransitionToExecutingAssignment()
      requires kind == Assignment && Equipped()
      modifies this`active, this`ack, this`aborted, this`locals
      ensures active == Entered(Assignment, Executing, conditions, old(active)) && locals == old(locals) + 1
      ensures ack == (old(ack) && old(active)(ActionComplete) != 0) && aborted == old(aborted)
    {
      TransitionToExecutingDefault();
      Activate(ActionComplete);
    }

    method ActivateInvariantEnd()
      modifies this`active, this`ack, this`aborted
      ensures active == InvariantEndOn(conditions, old(active))
      ensures ack == old(ack) && aborted == old(aborted)
    {
      Activate(Invariant);
      Activate(End);
    }

    method ActivateInvariantEndChildren()
      modifies this`active, this`ack, this`aborted
      ensures active == Entered(List, Executing, conditions, old(active))
      ensures ack == old(ack) && aborted == old(aborted)
    {
      ActivateInvariantEnd();
      ActivateChildrenConditions();
    }

    method TransitionToExecutingList()
      requires kind == List
      modifies this`active, this`ack, this`aborted, this`locals
      ensures active == Entered(List, Executing, conditions, old(active)) && locals == old(locals) + 1
      ensures ack == old(ack) && aborted == old(aborted)
    {
      ActivateLocalVariables();
      ActivateInvariantEndChildren();
    }

    method ActivateInvariantExitEnd()
      modifies this`active, this`ack, this`aborted
      ensures active == Entered(Command, Executing, conditions, old(active))
      ensures ack == old(ack) && aborted == old(aborted)
    {
      Activate(Invariant);
      Activate(Exit);
      Activate(End);
    }

    method TransitionToExecutingCommand()
      requires kind == Command
      modifies this`active, this`ack, this`aborted, this`locals
      ensures active == Entered(Command, Executing, conditions, old(active)) && locals == old(locals) + 1
      ensures ack == old(ack) && aborted == old(aborted)
    {
      ActivateLocalVariables();
      ActivateInvariantExitEnd();
    }

    method TransitionToExecuting()
      requires Equipped()
      modifies this`active, this`ack, this`aborted, this`locals
      ensures active == Entered(kind, Executing, conditions, old(active)) && locals == old(locals) + 1
      ensures ack == (old(ack) && !(kind == Assignment && old(active)(ActionComplete) == 0))
      ensures aborted == old(aborted)
    {
      match kind {
        case Empty => TransitionToExecutingDefault();
        case Assignment => TransitionToExecutingAssignment();
        case List => TransitionToExecutingList();
        case Command => TransitionToExecutingCommand();
      }
    }

    method TransitionToFinishing()
      requires StateOf(kind, Finishing)
      modifies this`active, this`ack, this`aborted
      ensures active == Entered(kind, Finishing, conditions, old(active))
      ensures ack == old(ack) && aborted == old(aborted)
    {
      Activate(Post);
      if kind == Command { Activate(ActionComplete); }
    }

    method TransitionToFailing(exec: PlexilExec)
      requires Equipped() && StateOf(kind, Failing)
      modifies this`active, this`ack, this`aborted, exec`toRetract, exec`aborts
      ensures active == Entered(kind, Failing, conditions, old(active))
      ensures ack == old(ack)
      ensures aborted == (old(aborted) && !(kind == Assignment && old(active)(AbortComplete) == 0))
      ensures exec.Lists() == UndoQueued(old(exec.Lists()), this, Failing)
    {
      if kind != List { Activate(AbortComplete); }
      if kind == Assignment { exec.toRetract := exec.toRetract + [this]; }
      if kind == Command { exec.aborts := exec.aborts + [this]; }
    }

    /** Activating an Assignment's flag from rest clears it. */
    twostate predicate FlagsAfterEntry(to: NodeState)
      reads this
    {
      && ack == (old(ack) && !(kind == Assignment && to == Executing && old(active)(ActionComplete) == 0))
      && aborted == (old(aborted) && !(kind == Assignment && to == Failing && old(active)(AbortComplete) == 0))
    }

    method ReachState(exec: PlexilExec, to: NodeState)
      requires Equipped() && StateOf(kind, to)
      modifies this`active, this`ack, this`aborted, this`locals, exec`toRetract, exec`aborts
      ensures active == Entered(kind, to, conditions, old(active)) && FlagsAfterEntry(to)
      ensures locals == old(locals) + if to == Executing then 1 else 0
      ensures exec.Lists() == UndoQueued(old(exec.Lists()), this, to)
    {
      match to {
        case Inactive =>
        case Waiting => TransitionToWaiting();
        case Executing => TransitionToExecuting();
        case Finishing => TransitionToFinishing();
        case Finished =>
        case Failing => TransitionToFailing(exec);
        case IterationEnded => Activate(Repeat);
      }
    }

    /** The entry handler of the node's type. */
    method TransitionTo(exec: PlexilExec, to: NodeState)
      requires Equipped() && StateOf(kind, to)
      modifies this`active, this`ack, this`aborted, this`locals, exec`toRetract, exec`aborts
      ensures active == Entered(kind, to, conditions, old(active))
      ensures Shifts(conditions, old(active), active, EnteringDeltas(kind, to)) && FlagsAfterEntry(to)
      ensures locals == old(locals) + if to == Executing then 1 else 0
      ensures exec.Lists() == UndoQueued(old(exec.Lists()), this, to)
      ensures exec.toRetract == old(exec.toRetract) + if kind == Assignment && to == Failing then [this] else []
      ensures exec.aborts == old(exec.aborts) + if kind == Command && to == Failing then [this] else []
    {
      EnteredShifts(kind, to, conditions, active);
      ReachState(exec, to);
    }

    /** An Assignment has the two flags as its completion and abort conditions. */
    predicate Equipped()
      reads this
    {
      kind == Assignment ==> conditions(ActionComplete).Some? && conditions(AbortComplete).Some?
    }

    /** An Assignment or Command is activated; an Assignment saves its variable and fixes the
        value to be assigned; either is queued. */
    method Execute(exec: PlexilExec, rhs: Val)
      modifies this`action, this`fixedValue, dest`saved, exec`toExecute, exec`commands
      ensures action == old(action) + Actions(kind)
      ensures fixedValue == if kind == Assignment then rhs else old(fixedValue)
      ensures dest.saved == if kind == Assignment then dest.value else old(dest.saved)
      ensures exec.Lists() == WorkQueued(old(exec.Lists()), this, Executing)
      ensures exec.toExecute == old(exec.toExecute) + if kind == Assignment then [this] else []
      ensures exec.commands == old(exec.commands) + if kind == Command then [this] else []
    {
      if kind == Assignment {
        action := action + 1;
        dest.saved := dest.value;
        fixedValue := rhs;
        exec.toExecute := exec.toExecute + [this];
      } else if kind == Command {
        action := action + 1;
        exec.commands := exec.commands + [this];
      }
    }

    /** Assignment::execute: the fixed value is stored, and the flag raised if it is active. */
    method ExecuteAssignment(exec: PlexilExec)
      modifies this`ack, this`queueStatus, dest`value, exec`candidates
      ensures dest.value == fixedValue && ack == (old(ack) || active(ActionComplete) > 0)
      ensures queueStatus ==
        if active(ActionComplete) > 0 && !old(ack) then NotifiedStatus(old(queueStatus)) else old(queueStatus)
      ensures exec.candidates == old(exec.candidates) +
        if active(ActionComplete) > 0 && !old(ack) && old(queueStatus) == QueueNone then [this] else []
      ensures forall q: Queue ::
        var raised := active(ActionComplete) > 0 && !old(ack);
        Record(if raised && old(queueStatus) == QueueNone then Candidates else q)
          == if raised then Notified(old(Record(q)).(ack := true)) else old(Record(q))
    {
      dest.value := fixedValue;
      if active(ActionComplete) > 0 && !ack {
        ack := true;
        var _ := Notify(exec);
      }
    }

    /** Assignment::retract: the saved value is restored, and the flag raised if it is active. */
    method RetractAssignment(exec: PlexilExec)
      modifies this`aborted, this`queueStatus, dest`value, exec`candidates
      ensures dest.value == dest.saved && aborted == (old(aborted) || active(AbortComplete) > 0)
      ensures queueStatus ==
        if active(AbortComplete) > 0 && !old(aborted) then NotifiedStatus(old(queueStatus)) else old(queueStatus)
      ensures exec.candidates == old(exec.candidates) +
        if active(AbortComplete) > 0 && !old(aborted) && old(queueStatus) == QueueNone then [this] else []
      ensures forall q: Queue ::
        var raised := active(AbortComplete) > 0 && !old(aborted);
        Record(if raised && old(queueStatus) == QueueNone then Candidates else q)
          == if raised then Notified(old(Record(q)).(aborted := true)) else old(Record(q))
    {
      dest.value := dest.saved;
      if active(AbortComplete) > 0 && !aborted {
        aborted := true;
        var _ := Notify(exec);
      }
    }

    // ----- the children conditions -----

    method AllChildrenFinished() returns (result: bool)
      ensures result <==> forall c | c in children :: c.state == Finished
    {
      var i := 0;
      while i < |children|
        invariant 0 <= i <= |children|
        invariant forall j | 0 <= j < i :: children[j].state == Finished
      {
        if children[i].state != Finished {
          return false;
        }
        i := i + 1;
      }
      return true;
    }

    method AllChildrenWaitingOrFinished() returns (result: bool)
      ensures result <==> forall c | c in children :: c.state == Waiting || c.state == Finished
    {
      var i := 0;
      while i < |children|
        invariant 0 <= i <= |children|
        invariant forall j | 0 <= j < i :: children[j].state == Waiting || children[j].state == Finished
      {
        match children[i].state {
          case Waiting =>
          case Finished =>
          case _ => return false;
        }
        i := i + 1;
      }
      return true;
    }

    // ----- condition wrappers -----

    method SetSlot(k: CondIdx, c: Option<Cond>)
      modifies this`conditions
      ensures forall q: CondIdx :: conditions(q) == if q == k then c else old(conditions)(q)
    {
      var was := conditions;
      conditions := q => if q == k then c else was(q);
    }

    /** The joined condition, null if both are; the parent's one is inherited otherwise. */
    method JoinSlot(k: CondIdx, isOr: bool, own: Option<Cond>, inherited: Option<Cond>)
      modifies this`conditions
      ensures forall q: CondIdx :: conditions(q) == if q == k then Join(isOr, own, inherited) else old(conditions)(q)
    {
      if own.Some? {
        if inherited.Some? {
          SetSlot(k, Some(if isOr then OrOf(own.value, inherited.value) else AndOf(own.value, inherited.value)));
        } else {
          SetSlot(k, own);
        }
      } else {
        SetSlot(k, inherited);
      }
    }

    /** specializedCreateConditionWrappers of the node's type; parents are wrapped first. */
    method CreateConditionWrappers()
      requires parent != this
      modifies this`conditions
      ensures forall k: CondIdx ::
        conditions(k) == Wrapped(kind, id, old(conditions), if parent == null then None else Some(parent.conditions))(k)
    {
      match kind {
        case List => WrapListConditions();
        case Command =>
          if conditions(End).Some? {
            SetSlot(End, Some(OrOf(Interruptible(id), conditions(End).value)));
          }
        case _ =>
      }
    }

    method WrapListConditions()
      requires parent != this && kind == List
      modifies this`conditions
      ensures forall k: CondIdx ::
        conditions(k) == Wrapped(List, id, old(conditions), if parent == null then None else Some(parent.conditions))(k)
    {
      SetSlot(ActionComplete, Some(AllWaitingOrFinished(id)));
      if parent != null {
        WrapUnderParent(parent.conditions);
      } else {
        WrapRoot();
      }
      forall k: CondIdx
        ensures conditions(k) ==
          Wrapped(List, id, old(conditions), if parent == null then None else Some(parent.conditions))(k)
      {
        WrappedSlot(id, old(conditions), if parent == null then None else Some(parent.conditions), k);
      }
    }

    method WrapUnderParent(up: Slots)
      modifies this`conditions
      ensures forall k: CondIdx ::
        conditions(k) == (match k
        case AncestorExit => Join(true, old(conditions)(Exit), up(AncestorExit))
        case AncestorInvariant => Join(false, old(conditions)(Invariant), up(AncestorInvariant))
        case AncestorEnd => Join(true, old(conditions)(End), up(AncestorEnd))
        case End => if old(conditions)(End).Some? then old(conditions)(End) else Some(AllFinished(id))
        case _ => old(conditions)(k))
    {
      JoinSlot(AncestorExit, true, conditions(Exit), up(AncestorExit));
      JoinSlot(AncestorInvariant, false, conditions(Invariant), up(AncestorInvariant));
      if conditions(End).Some? {
        JoinSlot(AncestorEnd, true, conditions(End), up(AncestorEnd));
      } else {
        SetSlot(End, Some(AllFinished(id)));
        SetSlot(AncestorEnd, up(AncestorEnd));
      }
    }

    method WrapRoot()
      modifies this`conditions
      ensures forall k: CondIdx ::
        conditions(k) == (match k
        case AncestorExit => old(conditions)(Exit)
        case AncestorInvariant => old(conditions)(Invariant)
        case AncestorEnd => old(conditions)(End)
        case End => if old(conditions)(End).Some? then old(conditions)(End) else Some(AllFinished(id))
        case _ => old(conditions)(k))
    {
      SetSlot(AncestorExit, conditions(Exit));
      SetSlot(AncestorInvariant, conditions(Invariant));
      if conditions(End).Some? {
        SetSlot(AncestorEnd, conditions(End));
      } else {
        SetSlot(End, Some(AllFinished(id)));
        SetSlot(AncestorEnd, None);
      }
    }

    // ----- entering a state -----

    /** The children of a node, none listed twice. */
    ghost predicate Family()
      reads this`children
    {
      && (kind != List ==> children == [])
      && (forall i | 0 <= i < |children| :: children[i] != this && children[i].parent == this)
      && (forall i, j | 0 <= i < j < |children| :: children[i] != children[j])
    }

    /** The children that join the candidates when the list enters a state. */
    ghost function JoiningFor(to: NodeState): seq<NodeImpl>
      reads this, children
    {
      Joining(children, Concerned(children, to), Statuses(children), |children|)
    }

    /** told are the children that state to concerns, joining those of them that join the
        candidates, and was the statuses of all. */
    ghost predicate Concerns(to: NodeState, told: set<NodeImpl>, joining: seq<NodeImpl>, was: seq<QueueStatus>)
      reads this, children
    {
      && told == Concerned(children, to) && was == Statuses(children)
      && joining == Joining(children, told, was, |children|)
    }

    /** NodeImpl::setState; reports whether a finished root was in a queue it should not be in. */
    method EnterState(exec: PlexilExec, now: NodeState) returns (error: bool)
      requires now != state
      modifies this`state, this`queueStatus, exec`candidates, exec`finishedRoots
      ensures state == now
      ensures error <==>
        if EndsRun(now) then old(queueStatus) !in {QueueNone, QueueCheck, QueueDelete} else !NotifyOk(old(queueStatus))
      ensures queueStatus ==
        if !EndsRun(now) then NotifiedStatus(old(queueStatus)) else if error then old(queueStatus) else QueueDelete
      ensures exec.Lists() == StateEntered(old(exec.Lists()), this, old(queueStatus), now)
    {
      state := now;
      if EndsRun(now) {
        match queueStatus {
          case QueueCheck =>
            exec.candidates := Without(exec.candidates, this);
            queueStatus := QueueDelete;
            exec.finishedRoots := exec.finishedRoots + [this];
            error := false;
          case QueueNone =>
            queueStatus := QueueDelete;
            exec.finishedRoots := exec.finishedRoots + [this];
            error := false;
          case QueueDelete => error := false;
          case _ => error := true;
        }
      } else {
        error := Notify(exec);
      }
    }

    predicate EndsRun(now: NodeState) {
      now == Finished && parent == null
    }

    /** ListNode::setState: notify the children that the new state concerns, in order. */
    method NotifyChildren(exec: PlexilExec, now: NodeState, ghost told: set<NodeImpl>, ghost was: seq<QueueStatus>)
      requires Family() && told == Concerned(children, now) && was == Statuses(children)
      modifies children`queueStatus, exec`candidates
      ensures Told(children, told, was)
      ensures exec.Lists() == Joined(old(exec.Lists()), Joining(children, told, was, |children|))
    {
      JoinedInOrder(exec.candidates, children, told, was, |children|);
      NotifyInOrder(exec, now, told, was);
    }

    method NotifyInOrder(exec: PlexilExec, now: NodeState, ghost told: set<NodeImpl>, ghost was: seq<QueueStatus>)
      requires Family() && PartTold(0, now, told, was)
      modifies children`queueStatus, exec`candidates
      ensures PartTold(|children|, now, told, was)
      ensures exec.candidates == JoinedBy(old(exec.candidates), children, told, was, |children|)
    {
      ghost var candidates := exec.candidates;
      var i := 0;
      while i < |children|
        invariant 0 <= i <= |children| && PartTold(i, now, told, was)
        invariant exec.candidates == JoinedBy(candidates, children, told, was, i)
      {
        NotifyNext(exec, now, told, was, i);
        i := i + 1;
      }
    }

    /** The first n children have been told. */
    ghost predicate PartTold(n: int, now: NodeState, told: set<NodeImpl>, was: seq<QueueStatus>)
      reads this, children
    {
      && 0 <= n <= |children| == |was|
      && (forall j | 0 <= j < |children| :: children[j] in told <==> Wakes(now, children[j].state))
      && (forall j | 0 <= j < n ::
            children[j].queueStatus == if children[j] in told then NotifiedStatus(was[j]) else was[j])
      && (forall j | n <= j < |children| :: children[j].queueStatus == was[j])
    }

    method NotifyNext(exec: PlexilExec, now: NodeState, ghost told: set<NodeImpl>, ghost was: seq<QueueStatus>, i: nat)
      requires Family() && PartTold(i, now, told, was) && i < |children|
      modifies children`queueStatus, exec`candidates
      ensures PartTold(i + 1, now, told, was)
      ensures exec.candidates == old(exec.candidates) + OneJoining(children[i], told, was[i])
    {
      NotifyChild(exec, children[i], now);
    }

    method NotifyChild(exec: PlexilExec, child: NodeImpl, now: NodeState)
      modifies child`queueStatus, exec`candidates
      ensures child.queueStatus ==
        if Wakes(now, child.state) then NotifiedStatus(old(child.queueStatus)) else old(child.queueStatus)
      ensures exec.candidates ==
        old(exec.candidates) + if Wakes(now, child.state) && old(child.queueStatus) == QueueNone then [child] else []
    {
      match now {
        case Waiting =>
          if child.state == Finished { var _ := child.Notify(exec); }
        case Executing =>
          if child.state == Inactive { var _ := child.Notify(exec); }
        case Finished =>
          if child.state == Inactive { var _ := child.Notify(exec); }
        case _ =>
      }
    }

    // ----- committing a move -----

    /** The node, its variable and the executive's lists as a value. */
    ghost function View(exec: PlexilExec, queue: Queue): Scene
      reads this, exec, dest
    {
      Scene(Record(queue), locals, action, dest.value, dest.saved, exec.Lists())
    }

    /** Exit handler, then entry handler. */
    method RunHandlers(exec: PlexilExec, to: NodeState)
      requires Equipped() && StateOf(kind, state) && LegalEdge(kind, state, to) && StateOf(kind, to)
      modifies this`active, this`ack, this`aborted, this`outcome, this`failure, this`locals, this`action,
               exec`toRetract, exec`aborts
      ensures active == Entered(kind, to, conditions, Left(kind, state, to, conditions, old(active)))
      ensures FlagsAfterEntry(to)
      ensures outcome == if Resets(state, to) then NoOutcome else old(outcome)
      ensures failure == if Resets(state, to) then NoFailure else old(failure)
      ensures locals ==
        old(locals) + (if to == Executing then 1 else 0) - (if Running(state) && !Running(to) then 1 else 0)
      ensures action == old(action) - if Running(state) && !Running(to) then Actions(kind) else 0
      ensures exec.Lists() == UndoQueued(old(exec.Lists()), this, to)
    {
      if kind == Assignment { FlagsUntouchedByExit(state, to, conditions, active); }
      TransitionFrom(to);
      TransitionTo(exec, to);
    }

    method Handle(exec: PlexilExec, to: NodeState, ghost counts: CondIdx -> int)
      requires Equipped() && StateOf(kind, state) && LegalEdge(kind, state, to) && StateOf(kind, to)
      requires counts == Entered(kind, to, conditions, Left(kind, state, to, conditions, active))
      modifies this`active, this`ack, this`aborted, this`outcome, this`failure, this`locals, this`action,
               exec`toRetract, exec`aborts
      ensures View(exec, StateChange) == HandlersRun(old(View(exec, StateChange)), this, to, counts)
    {
      RunHandlers(exec, to);
    }

    /** setState, with the list's notifications. */
    method ChangeState(exec: PlexilExec, to: NodeState, ghost told: set<NodeImpl>, ghost joining: seq<NodeImpl>,
                       ghost was: seq<QueueStatus>)
        returns (error: bool)
      requires Family() && to != state && (queueStatus == QueueNone || queueStatus == QueueCheck)
      requires Concerns(to, told, joining, was)
      modifies this`state, this`queueStatus, children`queueStatus, exec`candidates, exec`finishedRoots
      ensures !error && Told(children, told, was)
      ensures state == to && queueStatus == if EndsRun(to) then QueueDelete else QueueCheck
      ensures exec.Lists() == Joined(StateEntered(old(exec.Lists()), this, old(queueStatus), to), joining)
    {
      error := EnterState(exec, to);
      assert told == Concerned(children, to) && was == Statuses(children);
      NotifyChildren(exec, to, told, was);
    }

    /** The queue that entering a state puts the node in. */
    function QueueAfter(to: NodeState): Queue {
      if EndsRun(to) then FinishedRoots else Candidates
    }

    /** Stores the cached outcome and failure type, if there are any, executes the node if
        it has started, and clears the cached decision. */
    method Settle(exec: PlexilExec, rhs: Val)
      modifies this`outcome, this`failure, this`fixedValue, this`nextState, this`nextOutcome, this`nextFailure,
               this`action, dest`saved, exec`toExecute, exec`commands
      ensures nextState == None && nextOutcome == NoOutcome && nextFailure == NoFailure
      ensures outcome == if old(nextOutcome) != NoOutcome then old(nextOutcome) else old(outcome)
      ensures failure ==
        if old(nextOutcome) != NoOutcome && old(nextFailure) != NoFailure then old(nextFailure) else old(failure)
      ensures fixedValue == if old(Starts()) then rhs else old(fixedValue)
      ensures dest.saved == if old(Starts()) then dest.value else old(dest.saved)
      ensures action == old(action) + if old(nextState) == Some(Executing) then Actions(kind) else 0
      ensures exec.Lists() ==
        if old(nextState) == Some(Executing) then WorkQueued(old(exec.Lists()), this, Executing) else old(exec.Lists())
    {
      if nextOutcome != NoOutcome {
        outcome := nextOutcome;
        if nextFailure != NoFailure {
          failure := nextFailure;
        }
      }
      if nextState == Some(Executing) {
        Execute(exec, rhs);
      }
      nextState, nextOutcome, nextFailure := None, NoOutcome, NoFailure;
    }

    /** An Assignment about to execute. */
    predicate Starts()
      reads this
    {
      kind == Assignment && nextState == Some(Executing)
    }

    /** setState, and what follows. */
    method Finish(exec: PlexilExec, rhs: Val, ghost told: set<NodeImpl>, ghost joining: seq<NodeImpl>,
                  ghost was: seq<QueueStatus>)
        returns (error: bool)
      requires Family() && nextState.Some? && nextState.value != state
      requires queueStatus == QueueNone || queueStatus == QueueCheck
      requires Concerns(nextState.value, told, joining, was)
      modifies this`outcome, this`failure, this`state, this`queueStatus, this`fixedValue, this`nextState,
               this`nextOutcome, this`nextFailure, this`action, dest`saved, children`queueStatus,
               exec`candidates, exec`finishedRoots, exec`toExecute, exec`commands
      ensures !error && Told(children, told, was)
      ensures state == old(nextState).value
      ensures View(exec, QueueAfter(state))
        == Settled(StateChanged(old(View(exec, StateChange)), this, old(nextState).value, joining), this, rhs)
    {
      var to := nextState.value;
      error := Change(exec, to, told, joining, was);
      SettleAll(exec, rhs, QueueAfter(to));
    }

    method Change(exec: PlexilExec, to: NodeState, ghost told: set<NodeImpl>, ghost joining: seq<NodeImpl>,
                  ghost was: seq<QueueStatus>)
        returns (error: bool)
      requires Family() && to != state && (queueStatus == QueueNone || queueStatus == QueueCheck)
      requires Concerns(to, told, joining, was)
      modifies this`state, this`queueStatus, children`queueStatus, exec`candidates, exec`finishedRoots
      ensures !error && Told(children, told, was) && state == to
      ensures View(exec, QueueAfter(to)) == StateChanged(old(View(exec, StateChange)), this, to, joining)
    {
      error := ChangeState(exec, to, told, joining, was);
    }

    method SettleAll(exec: PlexilExec, rhs: Val, ghost queue: Queue)
      modifies this`outcome, this`failure, this`fixedValue, this`nextState, this`nextOutcome, this`nextFailure,
               this`action, dest`saved, exec`toExecute, exec`commands
      ensures View(exec, queue) == Settled(old(View(exec, queue)), this, rhs)
    {
      Settle(exec, rhs);
    }

    /** Handlers, setState, and what follows; counts are the activation counts after it. */
    method MoveOn(exec: PlexilExec, rhs: Val, ghost told: set<NodeImpl>, ghost joining: seq<NodeImpl>,
                  ghost was: seq<QueueStatus>,
                  ghost counts: CondIdx -> int) returns (error: bool)
      requires Family() && Equipped() && StateOf(kind, state)
      requires nextState.Some? && LegalEdge(kind, state, nextState.value) && StateOf(kind, nextState.value)
      requires queueStatus == QueueNone || queueStatus == QueueCheck
      requires Concerns(nextState.value, told, joining, was)
      requires counts ==
        Entered(kind, nextState.value, conditions, Left(kind, state, nextState.value, conditions, active))
      modifies this`active, this`ack, this`aborted, this`outcome, this`failure, this`state, this`queueStatus,
               this`fixedValue, this`nextState, this`nextOutcome, this`nextFailure, this`locals, this`action,
               dest`saved, children`queueStatus, exec`candidates, exec`finishedRoots,
               exec`toExecute, exec`toRetract, exec`commands, exec`aborts
      ensures !error && Told(children, told, was) && state == old(nextState).value
      ensures View(exec, QueueAfter(state)) ==
        Settled(StateChanged(HandlersRun(old(View(exec, StateChange)), this, state, counts), this, state, joining),
          this, rhs)
    {
      Handle(exec, nextState.value, counts);
      assert told == Concerned(children, nextState.value) && was == Statuses(children);
      error := Finish(exec, rhs, told, joining, was);
    }

    /** The move that getDestState cached, for a node just taken off the queue. */
    method Transition(exec: PlexilExec, rhs: Val) returns (error: bool)
      requires Family() && Equipped() && StateOf(kind, state)
      requires nextState.Some? && LegalEdge(kind, state, nextState.value) && StateOf(kind, nextState.value)
      requires queueStatus == QueueNone || queueStatus == QueueCheck
      modifies this`active, this`ack, this`aborted, this`outcome, this`failure, this`state, this`queueStatus,
               this`fixedValue, this`nextState, this`nextOutcome, this`nextFailure, this`locals, this`action,
               dest`saved, children`queueStatus, exec`candidates, exec`finishedRoots,
               exec`toExecute, exec`toRetract, exec`commands, exec`aborts
      ensures !error
      ensures Told(children, old(Concerned(children, nextState.value)), old(Statuses(children)))
      ensures HasCommitted(old(View(exec, StateChange)), View(exec, QueueAfter(state)), this, conditions,
                           old(JoiningFor(nextState.value)), rhs)
    {
      ghost var told := Concerned(children, nextState.value);
      ghost var joining, was := JoiningFor(nextState.value), Statuses(children);
      ghost var to := nextState.value;
      ghost var counts := Entered(kind, to, conditions, Left(kind, state, to, conditions, active));
      HandledShifts(kind, state, to, conditions, active);
      HandlersThenFinish(View(exec, StateChange), this, conditions, counts, joining, rhs);
      error := MoveOn(exec, rhs, told, joining, was, counts);
    }
  }

  /** A node on its way from one state to the next, its variable, and the executive's lists. */
  datatype Scene = Scene(node: NodeRec, locals: int, action: int, value: Val, saved: Val, lists: ExecLists)

  /** What committing the cached decision of node self does: its record becomes the step
      system's, what it works with is active while it runs, an Assignment that starts saves its
      variable, and the lists change as its state demands. */
  ghost predicate HasCommitted(v: Scene, w: Scene, self: NodeImpl, slots: Slots, joining: seq<NodeImpl>, rhs: Val)
    requires v.node.next.Some?
  {
    var from, to := v.node.state, v.node.next.value;
    && HasMoved(self.kind, self.parent == null, slots, v.node, rhs, w.node)
    && w.locals == v.locals + Runs(to) - Runs(from)
    && w.action == v.action + (if self.kind == Assignment || self.kind == Command then Runs(to) - Runs(from) else 0)
    && w.value == v.value
    && w.saved == (if self.kind == Assignment && to == Executing then v.value else v.saved)
    && w.lists == AfterMove(v.lists, self, v.node.status, to, joining)
  }

  /** A record that has moved on from n is the step system's committed record. */
  lemma {:induction false} MovedIsCommitted(kind: Kind, isRoot: bool, slots: Slots, n: NodeRec, rhs: Val, m: NodeRec)
    requires n.next.Some? && HasMoved(kind, isRoot, slots, n, rhs, m)
    ensures SameRecord(m, Committed(kind, isRoot, slots, n, rhs))
  {
    CommittedHasMoved(kind, isRoot, slots, n, rhs);
    forall k: CondIdx ensures m.active(k) == Committed(kind, isRoot, slots, n, rhs).active(k) {
      assert CountEffect(kind, slots, n, m, k);
    }
  }

  /** What exit and entry handler do; counts are the activation counts they leave. */
  function HandlersRun(v: Scene, self: NodeImpl, to: NodeState, counts: CondIdx -> int): Scene {
    var n, stops := v.node, Running(v.node.state) && !Running(to);
    v.(node := n.(outcome := if Resets(n.state, to) then NoOutcome else n.outcome,
                  failure := if Resets(n.state, to) then NoFailure else n.failure,
                  active := counts,
                  ack := n.ack && !(self.kind == Assignment && to == Executing && n.active(ActionComplete) == 0),
                  aborted := n.aborted && !(self.kind == Assignment && to == Failing && n.active(AbortComplete) == 0)),
       locals := v.locals + (if to == Executing then 1 else 0) - (if stops then 1 else 0),
       action := v.action - (if stops then Actions(self.kind) else 0),
       lists := UndoQueued(v.lists, self, to))
  }

  /** What setState does. */
  function StateChanged(v: Scene, self: NodeImpl, to: NodeState, joining: seq<NodeImpl>): Scene {
    v.(node := v.node.(state := to,
                       status := if self.EndsRun(to) then QueueDelete else QueueCheck,
                       queue := self.QueueAfter(to)),
       lists := Joined(StateEntered(v.lists, self, v.node.status, to), joining))
  }

  /** What the rest of transition does. */
  function Settled(v: Scene, self: NodeImpl, rhs: Val): Scene {
    var n, starts := v.node, v.node.next == Some(Executing);
    v.(node := n.(next := None, nextOutcome := NoOutcome, nextFailure := NoFailure,
                  outcome := if n.nextOutcome != NoOutcome then n.nextOutcome else n.outcome,
                  failure := if n.nextOutcome != NoOutcome && n.nextFailure != NoFailure then n.nextFailure
                    else n.failure,
                  fixedValue := if self.kind == Assignment && starts then rhs else n.fixedValue),
       action := v.action + (if starts then Actions(self.kind) else 0),
       saved := if self.kind == Assignment && starts then v.value else v.saved,
       lists := if starts then WorkQueued(v.lists, self, Executing) else v.lists)
  }

  lemma {:induction false} HandlersThenFinish(v: Scene, self: NodeImpl, slots: Slots, counts: CondIdx -> int,
                                              joining: seq<NodeImpl>, rhs: Val)
    requires v.node.next.Some? && LegalEdge(self.kind, v.node.state, v.node.next.value)
    requires Shifts(slots, v.node.active, counts, Deltas(self.kind, v.node.state, v.node.next.value))
    ensures var to := v.node.next.value;
      HasCommitted(v, Settled(StateChanged(HandlersRun(v, self, to, counts), self, to, joining), self, rhs),
                   self, slots, joining, rhs)
  {
    var n, to := v.node, v.node.next.value;
    var m := Settled(StateChanged(HandlersRun(v, self, to, counts), self, to, joining), self, rhs).node;
    forall k: CondIdx ensures CountEffect(self.kind, slots, n, m, k) {
      assert counts(k) == n.active(k) + if slots(k).Some? then Deltas(self.kind, n.state, to)(k) else 0;
    }
  }

  function First(queue: seq<NodeImpl>): NodeImpl
    requires queue != []
  {
    queue[0]
  }

  /** A pending node's record after another evaluation. */
  function Reconsidered(n: NodeRec, d: Decision): NodeRec {
    var m := Decided(n, d);
    if !d.Go? then m.(status := QueueNone, queue := NoQueue)
    else if d.to != Executing then m.(status := QueueTransition, queue := StateChange)
    else m
  }

  /** And after it has been looked at. */
  function LookedAt(n: NodeRec, d: Decision): NodeRec {
    match n.status
    case QueuePendingCheck => Reconsidered(n, d).(status := QueuePending)
    case QueuePendingTryCheck => Reconsidered(n, d)
    case _ => n
  }

  /** Looking at a node and then, if it may, trying to acquire: the whole turn. */
  lemma LookedAtThenTried(n: NodeRec, d: Decision, free: bool)
    requires PendingStatus(n.status) && n.queue == PendingQueue
    ensures !Attempts(n, d) ==> Resolved(n, d, free) == LookedAt(n, d)
    ensures Attempts(n, d) ==>
      && LookedAt(n, d).queue == PendingQueue
      && Resolved(n, d, free) == if free then LookedAt(n, d).(status := QueueTransition, queue := StateChange)
                                 else LookedAt(n, d).(status := QueuePending)
  {
  }

  const PRIORITY: NodeImpl -> int := (n: NodeImpl) => n.priority

  /** The pending queue after a turn of node, which is then in the queue named. */
  function PendingAfter(pending: seq<NodeImpl>, node: NodeImpl, queue: Queue): seq<NodeImpl> {
    if queue != PendingQueue then WalkedQueue.Without(pending, node)
    else if node in pending then pending
    else WalkedQueue.Inserted(pending, node, PRIORITY)
  }

  lemma {:induction false} NotPending(pending: seq<NodeImpl>, node: NodeImpl)
    requires node !in pending
    ensures WalkedQueue.Without(pending, node) == pending
  {
    if pending != [] { NotPending(pending[1..], node); }
  }

  /** A queue after its members equal to n have been removed. */
  function Without(queue: seq<NodeImpl>, n: NodeImpl): (r: seq<NodeImpl>)
    ensures n !in r
    ensures forall m | m in r :: m in queue
    ensures forall m | m in queue :: m == n || m in r
  {
    if queue == [] then []
    else if queue[0] == n then Without(queue[1..], n)
    else [queue[0]] + Without(queue[1..], n)
  }

  lemma {:induction false} WithoutLast(queue: seq<NodeImpl>, n: NodeImpl)
    ensures Without(queue + [n], n) == Without(queue, n)
  {
    if queue == [] {
      assert [] + [n] == [n] && [n][1..] == [];
    } else {
      WithoutLast(queue[1..], n);
      assert (queue + [n])[1..] == queue[1..] + [n];
    }
  }

  /** What has to be undone is queued. */
  function UndoQueued(l: ExecLists, n: NodeImpl, to: NodeState): ExecLists {
    if to != Failing then l
    else if n.kind == Assignment then l.(toRetract := l.toRetract + [n])
    else if n.kind == Command then l.(aborts := l.aborts + [n])
    else l
  }

  /** What starts is queued. */
  function WorkQueued(l: ExecLists, n: NodeImpl, to: NodeState): ExecLists {
    if to != Executing then l
    else if n.kind == Assignment then l.(toExecute := l.toExecute + [n])
    else if n.kind == Command then l.(commands := l.commands + [n])
    else l
  }

  /** A node with status was enters a state: a finished root goes from the candidates to the
      finished roots, and any other node, if it is in no queue, to the candidates. */
  function StateEntered(l: ExecLists, n: NodeImpl, was: QueueStatus, to: NodeState): ExecLists {
    if n.EndsRun(to) then
      l.(candidates := if was == QueueCheck then Without(l.candidates, n) else l.candidates,
         finishedRoots := l.finishedRoots + if was == QueueCheck || was == QueueNone then [n] else [])
    else l.(candidates := l.candidates + if was == QueueNone then [n] else [])
  }

  function Joined(l: ExecLists, nodes: seq<NodeImpl>): ExecLists {
    l.(candidates := l.candidates + nodes)
  }

  /** The lists after a move, the children in joining having been notified. */
  function AfterMove(l: ExecLists, n: NodeImpl, was: QueueStatus, to: NodeState, joining: seq<NodeImpl>): ExecLists {
    WorkQueued(Joined(StateEntered(UndoQueued(l, n, to), n, was, to), joining), n, to)
  }

  /** getStateChangeNode, as a value. */
  function TakenOff(v: Scene, self: NodeImpl): Scene {
    var again := v.node.status == QueueTransitionCheck;
    v.(node := v.node.(status := if again then QueueCheck else QueueNone),
       lists := if again then v.lists.(candidates := v.lists.candidates + [self]) else v.lists)
  }

  /** A notification that reached the node while it was queued for its move makes no difference
      to what the move does, but that a finished root leaves the candidates. */
  function Waited(v: Scene, self: NodeImpl): Scene
    requires v.node.next.Some?
  {
    v.(node := v.node.(status := QueueNone),
       lists := if v.node.status == QueueTransitionCheck && self.EndsRun(v.node.next.value)
                then v.lists.(candidates := Without(v.lists.candidates, self)) else v.lists)
  }

  lemma {:induction false} PoppedScene(v: Scene, w: Scene, self: NodeImpl, slots: Slots, joining: seq<NodeImpl>,
                                       rhs: Val)
    requires v.node.next.Some? && HasCommitted(TakenOff(v, self), w, self, slots, joining, rhs)
    ensures HasCommitted(Waited(v, self), w, self, slots, joining, rhs)
  {
    PoppedLists(v.lists, self, v.node.status, v.node.next.value, joining);
    forall k: CondIdx ensures CountEffect(self.kind, slots, Waited(v, self).node, w.node, k) {
      assert CountEffect(self.kind, slots, TakenOff(v, self).node, w.node, k);
    }
  }

  lemma {:induction false} PoppedLists(l: ExecLists, n: NodeImpl, was: QueueStatus, to: NodeState,
                                       joining: seq<NodeImpl>)
    ensures var again := was == QueueTransitionCheck;
      AfterMove(if again then l.(candidates := l.candidates + [n]) else l,
                n, if again then QueueCheck else QueueNone, to, joining)
      == AfterMove(if again && n.EndsRun(to) then l.(candidates := Without(l.candidates, n)) else l,
                   n, QueueNone, to, joining)
  {
    WithoutLast(l.candidates, n);
    assert l.candidates + [n] == l.candidates + [n] + [];
  }

  /** The children that a list's new state concerns. */
  ghost function Concerned(children: seq<NodeImpl>, now: NodeState): set<NodeImpl>
    reads children`state
  {
    set c | c in children && Wakes(now, c.state)
  }

  ghost function Statuses(nodes: seq<NodeImpl>): (s: seq<QueueStatus>)
    reads nodes
    ensures |s| == |nodes|
  {
    seq(|nodes|, i requires 0 <= i < |nodes| reads nodes => nodes[i].queueStatus)
  }

  /** Exactly the nodes in told have been notified; was are the statuses before. */
  ghost predicate Told(nodes: seq<NodeImpl>, told: set<NodeImpl>, was: seq<QueueStatus>)
    requires |was| == |nodes|
    reads nodes`queueStatus
  {
    forall i | 0 <= i < |nodes| ::
      nodes[i].queueStatus == if nodes[i] in told then NotifiedStatus(was[i]) else was[i]
  }

  /** Those of the first n that were told and had been in no queue, in order: they become
      candidates. */
  function Joining(nodes: seq<NodeImpl>, told: set<NodeImpl>, was: seq<QueueStatus>, n: nat): seq<NodeImpl>
    requires n <= |nodes| == |was|
  {
    if n == 0 then []
    else
      Joining(nodes, told, was, n - 1) + OneJoining(nodes[n - 1], told, was[n - 1])
  }

  function OneJoining(node: NodeImpl, told: set<NodeImpl>, was: QueueStatus): seq<NodeImpl> {
    if node in told && was == QueueNone then [node] else []
  }

  /** The candidates after the first n have been told, one by one. */
  function JoinedBy(candidates: seq<NodeImpl>, nodes: seq<NodeImpl>, told: set<NodeImpl>, was: seq<QueueStatus>, n: nat)
      : seq<NodeImpl>
    requires n <= |nodes| == |was|
  {
    if n == 0 then candidates
    else JoinedBy(candidates, nodes, told, was, n - 1) + OneJoining(nodes[n - 1], told, was[n - 1])
  }

  lemma {:induction false} JoinedInOrder(candidates: seq<NodeImpl>, nodes: seq<NodeImpl>, told: set<NodeImpl>,
                                         was: seq<QueueStatus>, n: nat)
    requires n <= |nodes| == |was|
    ensures JoinedBy(candidates, nodes, told, was, n) == candidates + Joining(nodes, told, was, n)
  {
    if n > 0 {
      JoinedInOrder(candidates, nodes, told, was, n - 1);
    }
  }

  /** One for a running state: what is activated for the time a node runs. */
  function Runs(s: NodeState): int {
    if Running(s) then 1 else 0
  }

  /** One for the types that have an action of their own to activate. */
  function Actions(kind: Kind): int {
    if kind == Assignment || kind == Command then 1 else 0
  }

  /** Wrapped, slot by slot. */
  lemma WrappedSlot(id: nat, own: Slots, parent: Option<Slots>, k: CondIdx)
    ensures Wrapped(List, id, own, parent)(k) ==
      match k
      case AncestorExit => Join(true, own(Exit), Inherited(parent, AncestorExit))
      case AncestorInvariant => Join(false, own(Invariant), Inherited(parent, AncestorInvariant))
      case AncestorEnd => Join(true, own(End), Inherited(parent, AncestorEnd))
      case ActionComplete => Some(AllWaitingOrFinished(id))
      case End => if own(End).Some? then own(End) else Some(AllFinished(id))
      case _ => own(k)
  {
  }

  /** The counts with slot k activated once more, or once less, if it is not null. */
  function On(slots: Slots, a: CondIdx -> int, k: CondIdx): CondIdx -> int {
    q => if q == k && slots(q).Some? then a(q) + 1 else a(q)
  }

  function Off(slots: Slots, a: CondIdx -> int, k: CondIdx): CondIdx -> int {
    q => if q == k && slots(q).Some? then a(q) - 1 else a(q)
  }

  /** The counts after the conditions that go together have been activated or deactivated,
      one by one. */
  function WaitingOn(s: Slots, a: CondIdx -> int): CondIdx -> int {
    On(s, On(s, On(s, a, Pre), Skip), Start)
  }

  function WaitingOff(s: Slots, a: CondIdx -> int): CondIdx -> int {
    Off(s, Off(s, Off(s, a, Pre), Skip), Start)
  }

  function ExitInvariantOff(s: Slots, a: CondIdx -> int): CondIdx -> int {
    Off(s, Off(s, a, Exit), Invariant)
  }

  function RunOff(s: Slots, a: CondIdx -> int): CondIdx -> int {
    Off(s, Off(s, ExitInvariantOff(s, a), End), Post)
  }

  function FinishingOff(s: Slots, a: CondIdx -> int): CondIdx -> int {
    Off(s, ExitInvariantOff(s, a), Post)
  }

  function InvariantEndOn(s: Slots, a: CondIdx -> int): CondIdx -> int {
    On(s, On(s, a, Invariant), End)
  }

  function ChildrenOn(s: Slots, a: CondIdx -> int): CondIdx -> int {
    On(s, On(s, On(s, a, AncestorExit), AncestorInvariant), AncestorEnd)
  }

  function ChildrenOff(s: Slots, a: CondIdx -> int): CondIdx -> int {
    Off(s, Off(s, Off(s, a, AncestorExit), AncestorInvariant), AncestorEnd)
  }

  lemma {:induction false} TogetherOn(s: Slots, a: CondIdx -> int, k: CondIdx)
    ensures WaitingOn(s, a)(k) == a(k) + if IsWaitingSlot(k) && s(k).Some? then 1 else 0
    ensures InvariantEndOn(s, a)(k) == a(k) + if (k == Invariant || k == End) && s(k).Some? then 1 else 0
    ensures ChildrenOn(s, a)(k) == a(k) + if IsAncestorSlot(k) && s(k).Some? then 1 else 0
  {
  }

  lemma {:induction false} TogetherOff(s: Slots, a: CondIdx -> int, k: CondIdx)
    ensures WaitingOff(s, a)(k) == a(k) - if IsWaitingSlot(k) && s(k).Some? then 1 else 0
    ensures ChildrenOff(s, a)(k) == a(k) - if IsAncestorSlot(k) && s(k).Some? then 1 else 0
  {
  }

  lemma {:induction false} RunOffAt(s: Slots, a: CondIdx -> int, k: CondIdx)
    ensures ExitInvariantOff(s, a)(k) == a(k) - if (k == Exit || k == Invariant) && s(k).Some? then 1 else 0
    ensures RunOff(s, a)(k) == a(k) - if IsRunSlot(k) && s(k).Some? then 1 else 0
    ensures FinishingOff(s, a)(k) == a(k) - if (k == Exit || k == Invariant || k == Post) && s(k).Some? then 1 else 0
  {
  }

  /** The counts as the exit handlers leave them, call by call. */
  function Left(kind: Kind, from: NodeState, to: NodeState, s: Slots, a: CondIdx -> int): CondIdx -> int {
    match from
    case Waiting => if to == Executing then WaitingOff(s, a) else Off(s, WaitingOff(s, a), Exit)
    case Executing => LeftExecuting(kind, to, s, a)
    case Finishing =>
      if kind != List then Off(s, FinishingOff(s, a), ActionComplete)
      else if to == IterationEnded then Off(s, ChildrenOff(s, FinishingOff(s, a)), ActionComplete)
      else FinishingOff(s, a)
    case Failing => if kind == List then Off(s, ChildrenOff(s, a), ActionComplete) else Off(s, a, AbortComplete)
    case IterationEnded => Off(s, a, Repeat)
    case _ => a
  }

  function LeftExecuting(kind: Kind, to: NodeState, s: Slots, a: CondIdx -> int): CondIdx -> int {
    match kind
    case Empty => RunOff(s, a)
    case Assignment => Off(s, RunOff(s, a), ActionComplete)
    case List =>
      if to == Failing then On(s, ExitInvariantOff(s, Off(s, a, End)), ActionComplete)
      else On(s, Off(s, a, End), ActionComplete)
    case Command => if to == Failing then Off(s, ExitInvariantOff(s, a), End) else Off(s, a, End)
  }

  /** The counts as the entry handlers leave them. */
  function Entered(kind: Kind, to: NodeState, s: Slots, a: CondIdx -> int): CondIdx -> int {
    match to
    case Waiting => WaitingOn(s, On(s, a, Exit))
    case Executing => EnteredExecuting(kind, s, a)
    case Finishing => if kind == Command then On(s, On(s, a, Post), ActionComplete) else On(s, a, Post)
    case Failing => if kind != List then On(s, a, AbortComplete) else a
    case IterationEnded => On(s, a, Repeat)
    case _ => a
  }

  function EnteredExecuting(kind: Kind, s: Slots, a: CondIdx -> int): CondIdx -> int {
    match kind
    case Empty => On(s, InvariantEndOn(s, a), Post)
    case Assignment => On(s, On(s, InvariantEndOn(s, a), Post), ActionComplete)
    case List => ChildrenOn(s, InvariantEndOn(s, a))
    case Command => On(s, On(s, On(s, a, Invariant), Exit), End)
  }

  lemma {:induction false} LeftIsDelta(kind: Kind, from: NodeState, to: NodeState, s: Slots, a: CondIdx -> int,
                                       k: CondIdx)
    requires StateOf(kind, from) && LegalEdge(kind, from, to)
    ensures Left(kind, from, to, s, a)(k) == a(k) + if s(k).Some? then LeavingDelta(kind, from, to, k) else 0
  {
    match from {
      case Waiting => LeftWaitingIsDelta(kind, to, s, a, k);
      case Executing => LeftExecutingIsDelta(kind, to, s, a, k);
      case Finishing => LeftFinishingIsDelta(kind, to, s, a, k);
      case Failing => LeftFailingIsDelta(kind, to, s, a, k);
      case _ =>
    }
  }

  lemma {:induction false} LeftWaitingIsDelta(kind: Kind, to: NodeState, s: Slots, a: CondIdx -> int, k: CondIdx)
    ensures Left(kind, Waiting, to, s, a)(k) == a(k) + if s(k).Some? then LeavingDelta(kind, Waiting, to, k) else 0
  {
    TogetherOff(s, a, k);
  }

  lemma {:induction false} LeftFailingIsDelta(kind: Kind, to: NodeState, s: Slots, a: CondIdx -> int, k: CondIdx)
    ensures Left(kind, Failing, to, s, a)(k) == a(k) + if s(k).Some? then LeavingDelta(kind, Failing, to, k) else 0
  {
    TogetherOff(s, a, k);
  }

  lemma {:induction false} LeftExecutingIsDelta(kind: Kind, to: NodeState, s: Slots, a: CondIdx -> int, k: CondIdx)
    requires LegalEdge(kind, Executing, to)
    ensures LeftExecuting(kind, to, s, a)(k) == a(k) + if s(k).Some? then LeavingDelta(kind, Executing, to, k) else 0
  {
    RunOffAt(s, a, k);
    RunOffAt(s, Off(s, a, End), k);
  }

  lemma {:induction false} LeftFinishingIsDelta(kind: Kind, to: NodeState, s: Slots, a: CondIdx -> int, k: CondIdx)
    requires LegalEdge(kind, Finishing, to)
    ensures Left(kind, Finishing, to, s, a)(k) == a(k) + if s(k).Some? then LeavingDelta(kind, Finishing, to, k) else 0
  {
    RunOffAt(s, a, k);
    TogetherOff(s, FinishingOff(s, a), k);
  }

  lemma {:induction false} EnteredIsDelta(kind: Kind, to: NodeState, s: Slots, a: CondIdx -> int, k: CondIdx)
    requires StateOf(kind, to)
    ensures Entered(kind, to, s, a)(k) == a(k) + if s(k).Some? then EnteringDelta(kind, to, k) else 0
  {
    if to == Executing {
      EnteredExecutingIsDelta(kind, s, a, k);
    } else if to == Waiting {
      TogetherOn(s, On(s, a, Exit), k);
    }
  }

  lemma {:induction false} EnteredExecutingIsDelta(kind: Kind, s: Slots, a: CondIdx -> int, k: CondIdx)
    ensures EnteredExecuting(kind, s, a)(k) == a(k) + if s(k).Some? then EnteringDelta(kind, Executing, k) else 0
  {
    TogetherOn(s, a, k);
    TogetherOn(s, InvariantEndOn(s, a), k);
  }

  /** b is a changed by delta in the slots that are not null. */
  ghost predicate Shifts(s: Slots, a: CondIdx -> int, b: CondIdx -> int, delta: CondIdx -> int) {
    forall k: CondIdx :: b(k) == a(k) + if s(k).Some? then delta(k) else 0
  }

  lemma {:induction false} LeftShifts(kind: Kind, from: NodeState, to: NodeState, s: Slots, a: CondIdx -> int)
    requires StateOf(kind, from) && LegalEdge(kind, from, to)
    ensures Shifts(s, a, Left(kind, from, to, s, a), LeavingDeltas(kind, from, to))
  {
    forall k: CondIdx
      ensures Left(kind, from, to, s, a)(k) == a(k) + if s(k).Some? then LeavingDeltas(kind, from, to)(k) else 0
    {
      LeftIsDelta(kind, from, to, s, a, k);
    }
  }

  lemma {:induction false} HandledShifts(kind: Kind, from: NodeState, to: NodeState, s: Slots, a: CondIdx -> int)
    requires StateOf(kind, from) && LegalEdge(kind, from, to) && StateOf(kind, to)
    ensures Shifts(s, a, Entered(kind, to, s, Left(kind, from, to, s, a)), Deltas(kind, from, to))
  {
    forall k: CondIdx
      ensures Entered(kind, to, s, Left(kind, from, to, s, a))(k)
           == a(k) + if s(k).Some? then Deltas(kind, from, to)(k) else 0
    {
      LeftIsDelta(kind, from, to, s, a, k);
      EnteredIsDelta(kind, to, s, Left(kind, from, to, s, a), k);
    }
  }

  lemma {:induction false} EnteredShifts(kind: Kind, to: NodeState, s: Slots, a: CondIdx -> int)
    requires StateOf(kind, to)
    ensures Shifts(s, a, Entered(kind, to, s, a), EnteringDeltas(kind, to))
  {
    forall k: CondIdx
      ensures Entered(kind, to, s, a)(k) == a(k) + if s(k).Some? then EnteringDeltas(kind, to)(k) else 0
    {
      EnteredIsDelta(kind, to, s, a, k);
    }
  }

  function LeavingDeltas(kind: Kind, from: NodeState, to: NodeState): CondIdx -> int {
    k => LeavingDelta(kind, from, to, k)
  }

  /** Leaving WAITING or EXECUTING does not touch the flags that entering clears. */
  lemma {:induction false} FlagsUntouchedByExit(from: NodeState, to: NodeState, s: Slots, a: CondIdx -> int)
    requires LegalEdge(Assignment, from, to)
    ensures to == Executing ==> Left(Assignment, from, to, s, a)(ActionComplete) == a(ActionComplete)
    ensures to == Failing ==> Left(Assignment, from, to, s, a)(AbortComplete) == a(AbortComplete)
  {
  }

  function Deltas(kind: Kind, from: NodeState, to: NodeState): CondIdx -> int {
    k => Delta(kind, from, to, k)
  }

  function EnteringDeltas(kind: Kind, to: NodeState): CondIdx -> int {
    k => EnteringDelta(kind, to, k)
  }

  function NotifiedStatus(q: QueueStatus): QueueStatus {
    match q
    case QueueNone => QueueCheck
    case QueuePending => QueuePendingCheck
    case QueuePendingTry => QueuePendingTryCheck
    case QueueTransition => QueueTransitionCheck
    case _ => q
  }
}
