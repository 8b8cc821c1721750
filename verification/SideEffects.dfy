/** What a move leaves for the executive to do, seen alike in the objects' queues, in the step
    system and in the test of the quiescence loop. */
module SideEffects {
  import opened NodeConstants
  import opened Options
  import opened Conditions
  import opened NodeLogic
  import opened PlanMachine
  import opened NodeClass
  import ExecLoop

  /** The node itself is appended, or nothing. */
  function Also(node: NodeImpl, b: bool): seq<NodeImpl> {
    if b then [node] else []
  }

  /** A move queues an assignment, a retraction, a command or an abort exactly on the four entries
      that have one, and takes nothing off those queues. */
  lemma {:induction false} QueuedWorkIsExact(v: Scene, w: Scene, self: NodeImpl, slots: Slots, joining: seq<NodeImpl>,
                                             rhs: Val)
    requires v.node.next.Some? && HasCommitted(v, w, self, slots, joining, rhs)
    ensures var to, l, m := w.node.state, v.lists, w.lists;
      && v.node.next == Some(to)
      && m.toExecute == l.toExecute + Also(self, self.kind == Assignment && to == Executing)
      && m.toRetract == l.toRetract + Also(self, self.kind == Assignment && to == Failing)
      && m.commands == l.commands + Also(self, self.kind == Command && to == Executing)
      && m.aborts == l.aborts + Also(self, self.kind == Command && to == Failing)
  {
  }

  /** A finished root leaves the candidates and is put up for deletion; any other node that had no
      check pending becomes a candidate; and so do the children that were told, behind it. */
  lemma {:induction false} CandidatesAreExact(v: Scene, w: Scene, self: NodeImpl, slots: Slots,
                                              joining: seq<NodeImpl>, rhs: Val)
    requires v.node.next.Some? && HasCommitted(v, w, self, slots, joining, rhs)
    requires v.node.status == QueueNone || (v.node.status == QueueCheck && self in v.lists.candidates)
    requires self !in joining
    ensures var ends := self.parent == null && w.node.state == Finished;
      && w.lists.finishedRoots == v.lists.finishedRoots + Also(self, ends)
      && (v.node.status == QueueNone ==>
            w.lists.candidates == v.lists.candidates + Also(self, !ends) + joining)
      && (v.node.status == QueueCheck && !ends ==> w.lists.candidates == v.lists.candidates + joining)
      && (v.node.status == QueueCheck && ends ==>
            && self !in w.lists.candidates
            && forall m :: m != self ==> (m in w.lists.candidates <==> m in v.lists.candidates || m in joining))
  {
    assert v.lists.candidates + [] == v.lists.candidates;
  }

  /** Local variables and action are switched on for EXECUTING, and off when the node stops running. */
  lemma {:induction false} ActiveWhileRunning(v: Scene, w: Scene, self: NodeImpl, slots: Slots,
                                              joining: seq<NodeImpl>, rhs: Val)
    requires v.node.next.Some? && HasCommitted(v, w, self, slots, joining, rhs)
    ensures var on := (s: NodeState) => if s in {Executing, Finishing, Failing} then 1 else 0;
      && w.locals - v.locals == on(w.node.state) - on(v.node.state)
      && w.action - v.action
         == if self.kind in {Assignment, Command} then on(w.node.state) - on(v.node.state) else 0
  {
  }

  lemma Appended(queue: seq<NodeImpl>, node: NodeImpl, b: bool)
    ensures queue + Also(node, b) != queue <==> b
  {
    assert |queue + [node]| > |queue|;
    assert queue + [] == queue;
  }

  /** The step system queues the work of the node that moves, on the same entries. */
  lemma {:induction false} CommitQueuesExactly(cfg: PlanConf, s: Plan, i: nat, rhs: Val)
    requires i < |cfg| == |s.nodes| == |s.hist| && s.nodes[i].next.Some?
    ensures var t, to := CommitNode(cfg, s, i, rhs), s.nodes[i].next.value;
      && t.toExecute == s.toExecute + (if cfg[i].kind == Assignment && to == Executing then {i} else {})
      && t.toRetract == s.toRetract + (if cfg[i].kind == Assignment && to == Failing then {i} else {})
  {
  }

  /** So a move queues work there exactly if the object's move does. */
  lemma {:induction false} SameWorkInTheSteps(v: Scene, w: Scene, self: NodeImpl, slots: Slots, joining: seq<NodeImpl>,
                                              rhs: Val, cfg: PlanConf, s: Plan, i: nat)
    requires v.node.next.Some? && HasCommitted(v, w, self, slots, joining, rhs)
    requires i < |cfg| == |s.nodes| == |s.hist| && cfg[i].kind == self.kind && s.nodes[i].next == v.node.next
    ensures var t := CommitNode(cfg, s, i, rhs);
      && t.toExecute == s.toExecute + (if w.lists.toExecute != v.lists.toExecute then {i} else {})
      && t.toRetract == s.toRetract + (if w.lists.toRetract != v.lists.toRetract then {i} else {})
  {
    QueuedWorkIsExact(v, w, self, slots, joining, rhs);
    var to := v.node.next.value;
    Appended(v.lists.toExecute, self, self.kind == Assignment && to == Executing);
    Appended(v.lists.toRetract, self, self.kind == Assignment && to == Failing);
    CommitQueuesExactly(cfg, s, i, rhs);
  }

  /** And the loop's test asks for commands and aborts of the same moves. */
  lemma {:induction false} SameCommandsInTheLoop(v: Scene, w: Scene, self: NodeImpl, slots: Slots,
                                                 joining: seq<NodeImpl>, rhs: Val, cfg: PlanConf, s: Plan, i: nat)
    requires v.node.next.Some? && HasCommitted(v, w, self, slots, joining, rhs)
    requires i < |cfg| == |s.nodes| && cfg[i].kind == self.kind && s.nodes[i].next == v.node.next
    requires s.nodes[i].queue == StateChange
    ensures ExecLoop.QueuesCommand(cfg, s, i)
      <==> w.lists.commands != v.lists.commands || w.lists.aborts != v.lists.aborts
  {
    QueuedWorkIsExact(v, w, self, slots, joining, rhs);
    var to := v.node.next.value;
    Appended(v.lists.commands, self, self.kind == Command && to == Executing);
    Appended(v.lists.aborts, self, self.kind == Command && to == Failing);
  }

  // ----- single-node updates -----

  /** The objects' notification is that of the step system. */
  lemma NotificationIsTheSteps(n: NodeRec)
    ensures Notified(n)
         == n.(status := NotifiedStatus(n.status), queue := if n.status == QueueNone then Candidates else n.queue)
  {
  }

  /** And so are executing and retracting an assignment. */
  lemma {:induction false} ExecutionIsTheSteps(cfg: PlanConf, s: Plan, i: nat)
    requires i < |cfg| == |s.nodes|
    ensures var n, m := s.nodes[i], ExecuteNode(cfg, s, i).nodes[i];
      var due := n.active(ActionComplete) > 0 && !n.ack;
      && m.ack == (n.ack || due) && m.status == (if due then NotifiedStatus(n.status) else n.status)
      && m.queue == if due && n.status == QueueNone then Candidates else n.queue
    ensures VariableOf(ExecuteNode(cfg, s, i), cfg[i].variable)
         == VariableOf(s, cfg[i].variable).(value := s.nodes[i].fixedValue)
  {
    NotificationIsTheSteps(s.nodes[i].(ack := true));
  }

  lemma {:induction false} RetractionIsTheSteps(cfg: PlanConf, s: Plan, i: nat)
    requires i < |cfg| == |s.nodes|
    ensures var n, m := s.nodes[i], RetractNode(cfg, s, i).nodes[i];
      var due := n.active(AbortComplete) > 0 && !n.aborted;
      && m.aborted == (n.aborted || due) && m.status == (if due then NotifiedStatus(n.status) else n.status)
      && m.queue == if due && n.status == QueueNone then Candidates else n.queue
    ensures VariableOf(RetractNode(cfg, s, i), cfg[i].variable)
         == var x := VariableOf(s, cfg[i].variable); x.(value := x.saved)
  {
    NotificationIsTheSteps(s.nodes[i].(aborted := true));
  }
}
