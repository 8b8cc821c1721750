/** Mutexes and assignment variables as objects that nodes reserve: acquiring several of
    them is all or nothing. */
module ResourceClass {
  import opened NodeConstants
  import opened Conditions
  import opened NodeLogic
  import opened PlanMachine
  import opened PlanInvariant
  import opened NodeClass
  import WalkedQueue

  class Reservable {
    var holder: NodeImpl?
    var waiters: seq<NodeImpl>

    constructor ()
      ensures Valid() && holder == null && waiters == []
    {
      holder, waiters := null, [];
    }

    /** Nobody waits twice. */
    ghost predicate Valid()
      reads this
    {
      NoDuplicates(waiters)
    }

    /** The node waits, or not; the others wait as they did. */
    twostate predicate Waits(node: NodeImpl, now: bool)
      reads this
    {
      && (node in waiters <==> now)
      && (forall n | n in waiters :: n == node || n in old(waiters))
      && (forall n | n in old(waiters) :: n == node || n in waiters)
    }

    method AddWaitingNode(node: NodeImpl)
      requires Valid()
      modifies this`waiters
      ensures Valid() && Waits(node, true)
    {
      if node !in waiters {
        waiters := waiters + [node];
      }
    }

    method RemoveWaitingNode(node: NodeImpl)
      requires Valid()
      modifies this`waiters
      ensures Valid() && Waits(node, false)
    {
      WithoutOne(waiters, node);
      waiters := WalkedQueue.Without(waiters, node);
    }

    /** Only a resource nobody holds is acquired, not even the holder gets it twice; on
        failure the node waits. */
    method Acquire(node: NodeImpl) returns (success: bool)
      requires Valid()
      modifies this
      ensures Valid() && Waits(node, !success)
      ensures success <==> old(holder) == null
      ensures holder == if success then node else old(holder)
    {
      if holder != null {
        AddWaitingNode(node);
        return false;
      }
      holder := node;
      RemoveWaitingNode(node);
      return true;
    }

    /** Only the holder's release has an effect: the waiters are told. */
    method Release(node: NodeImpl)
      modifies this`holder, waiters`queueStatus
      ensures holder == if old(holder) == node then null else old(holder)
      ensures forall n | n in waiters ::
        n.queueStatus == if old(holder) == node then AvailableStatus(old(n.queueStatus)) else old(n.queueStatus)
    {
      if holder == node {
        holder := null;
        var i := 0;
        while i < |waiters|
          invariant 0 <= i <= |waiters| && holder == null
          invariant forall n | n in waiters[..i] :: n.queueStatus == AvailableStatus(old(n.queueStatus))
          invariant forall n | n in waiters && n !in waiters[..i] :: n.queueStatus == old(n.queueStatus)
        {
          ghost var next := waiters[i];
          waiters[i].NotifyResourceAvailable();
          assert waiters[..i + 1] == waiters[..i] + [next];
          i := i + 1;
        }
        assert waiters[..i] == waiters;
      }
    }
  }

  /** The nodes waiting for one of the resources. */
  ghost function AllWaiters(rs: seq<Reservable>): set<NodeImpl>
    reads rs
  {
    set r, n | r in rs && n in r.waiters :: n
  }

  ghost predicate AllValid(rs: seq<Reservable>)
    reads rs
  {
    forall r | r in rs :: r.Valid()
  }

  /** All but the node wait as they did. */
  twostate predicate OthersWait(r: Reservable, node: NodeImpl)
    reads r
  {
    r.Waits(node, node in r.waiters)
  }

  /** All the resources are free, and none is listed twice. */
  ghost predicate AllFree(rs: seq<Reservable>)
    reads rs
  {
    && (forall r | r in rs :: r.holder == null)
    && (forall i, j | 0 <= i < j < |rs| :: rs[i] != rs[j])
  }

  /** The first f of the mutexes can be acquired one after the other, and the next is held. */
  ghost predicate BlockedAt(rs: seq<Reservable>, f: nat)
    reads rs
  {
    && f < |rs| && (forall j | 0 <= j < f :: rs[j].holder == null) && (forall j, k | 0 <= j < k < f :: rs[j] != rs[k])
    && (rs[f].holder != null || exists j | 0 <= j < f :: rs[j] == rs[f])
  }

  /** Acquires the mutexes in order up to the first that is held, and tells which that is. */
  method AcquireMutexes(node: NodeImpl, mutexes: seq<Reservable>) returns (busy: Reservable?, ghost f: nat)
    requires AllValid(mutexes)
    modifies mutexes
    ensures AllValid(mutexes) && forall m | m in mutexes :: OthersWait(m, node)
    ensures if busy == null then old(AllFree(mutexes))
            else old(BlockedAt(mutexes, f)) && f < |mutexes| && busy == mutexes[f]
    ensures busy == null ==> forall m | m in mutexes :: m.holder == node && node !in m.waiters
    ensures busy != null ==> busy.holder == if old(busy.holder) == null then node else old(busy.holder)
    ensures forall m | m in mutexes :: m.holder == old(m.holder) || (old(m.holder) == null && m.holder == node)
  {
    busy, f := null, 0;
    var i := 0;
    while i < |mutexes|
      invariant 0 <= i <= |mutexes|
      invariant forall j | 0 <= j < i :: old(mutexes[j].holder) == null && mutexes[j].holder == node
      invariant forall j, k | 0 <= j < k < i :: mutexes[j] != mutexes[k]
      invariant forall m | m in mutexes && m !in mutexes[..i] :: m.holder == old(m.holder)
      invariant AllValid(mutexes) && forall m | m in mutexes :: OthersWait(m, node)
      invariant forall j | 0 <= j < i :: node !in mutexes[j].waiters
    {
      var got := mutexes[i].Acquire(node);
      if !got {
        return mutexes[i], i;
      }
      i := i + 1;
    }
  }

  /** The node's ancestors, from its parent to a root. */
  ghost predicate IsLine(node: NodeImpl, line: seq<NodeImpl>) {
    && (node.parent == if line == [] then null else line[0])
    && (line != [] ==> line[|line| - 1].parent == null)
    && forall i, j | 0 <= i < |line| && j == i + 1 && j < |line| :: line[i].parent == line[j]
  }

  method IsAncestorOf(node: NodeImpl, other: NodeImpl?, ghost line: seq<NodeImpl>) returns (found: bool)
    requires IsLine(node, line)
    ensures found <==> other in line
  {
    var ancestor := node.parent;
    ghost var i := 0;
    while ancestor != null
      invariant i <= |line| && ancestor == (if i == |line| then null else line[i])
      invariant other !in line[..i]
      decreases |line| - i
    {
      if ancestor == other {
        return true;
      }
      ancestor, i := ancestor.parent, i + 1;
    }
    return false;
  }

  /** Acquires the mutexes; it is an error in the plan if the first busy one is held by an
      ancestor. */
  method AcquireOrComplain(node: NodeImpl, mutexes: seq<Reservable>, ghost line: seq<NodeImpl>)
      returns (success: bool, planError: bool)
    requires AllValid(mutexes) && IsLine(node, line) && node !in line
    modifies mutexes
    ensures success == old(AllFree(mutexes)) && planError == old(BlockedByAncestor(mutexes, line))
    ensures AllValid(mutexes) && forall m | m in mutexes :: OthersWait(m, node)
    ensures success ==> forall m | m in mutexes :: m.holder == node && node !in m.waiters
    ensures forall m | m in mutexes :: m.holder == old(m.holder) || (old(m.holder) == null && m.holder == node)
  {
    OnlyOneBlocks(mutexes, line);
    var busy, f := AcquireMutexes(node, mutexes);
    success, planError := busy == null, false;
    if busy != null {
      planError := IsAncestorOf(node, busy.holder, line);
    }
  }

  /** The variable too, if all mutexes have been acquired; otherwise the node waits for it. */
  method AcquireVariable(node: NodeImpl, variable: Reservable, soFar: bool) returns (success: bool)
    requires variable.Valid()
    modifies variable
    ensures success == (soFar && old(variable.holder) == null)
    ensures variable.holder == if success then node else old(variable.holder)
    ensures variable.Valid() && variable.Waits(node, !success)
  {
    if soFar {
      success := variable.Acquire(node);
    } else {
      variable.AddWaitingNode(node);
      success := false;
    }
  }

  /** All or nothing: the node ends up holding every mutex, and the variable of an
      Assignment, if all were free; otherwise it holds none of the mutexes, not even one it
      held before, and waits for each.  It is an error in the plan if the first busy mutex is
      held by an ancestor. */
  method TryResourceAcquisition(node: NodeImpl, mutexes: seq<Reservable>, variable: Reservable?,
                                ghost line: seq<NodeImpl>)
      returns (success: bool, planError: bool)
    requires variable !in mutexes && AllValid(mutexes) && (variable != null ==> variable.Valid())
    requires IsLine(node, line) && node !in line
    modifies mutexes, variable, AllWaiters(mutexes)`queueStatus, node`queueStatus
    ensures success <==> old(AllFree(mutexes)) && (variable != null ==> old(variable.holder) == null)
    ensures planError == old(BlockedByAncestor(mutexes, line))
    ensures success ==> forall m | m in mutexes :: m.holder == node
    ensures !success ==> forall m | m in mutexes :: m.holder == if old(m.holder) == node then null else old(m.holder)
    ensures AllValid(mutexes) && forall m | m in mutexes :: m.Waits(node, !success)
    ensures forall n | n in old(AllWaiters(mutexes)) + {node} :: OnlyTold(old(n.queueStatus), n.queueStatus)
    ensures success ==> forall n | n in old(AllWaiters(mutexes)) + {node} :: n.queueStatus == old(n.queueStatus)
    ensures variable != null ==>
      && variable.holder == (if success then node else old(variable.holder))
      && variable.Valid() && variable.Waits(node, !success)
  {
    success, planError := AcquireOrComplain(node, mutexes, line);
    if variable != null {
      success := AcquireVariable(node, variable, success);
    }
    if !success {
      ReleaseAndWait(node, mutexes);
    }
  }

  /** The first busy mutex is held by one of these nodes. */
  ghost predicate BlockedByAncestor(rs: seq<Reservable>, line: seq<NodeImpl>)
    reads rs
  {
    exists f: nat :: BlockedAt(rs, f) && rs[f].holder in line
  }

  lemma OnlyOneBlocks(rs: seq<Reservable>, line: seq<NodeImpl>)
    ensures forall f: nat | BlockedAt(rs, f) :: BlockedByAncestor(rs, line) <==> rs[f].holder in line
    ensures AllFree(rs) ==> !BlockedByAncestor(rs, line)
  {
    forall f: nat, g: nat | BlockedAt(rs, f) && BlockedAt(rs, g) ensures f == g {
    }
  }

  /** The plan error is reported exactly if an ancestor holds a mutex and all that are listed before it
      are free, none of them twice. */
  lemma {:induction false} PlanErrorMeans(rs: seq<Reservable>, line: seq<NodeImpl>)
    ensures BlockedByAncestor(rs, line) <==>
      exists f: nat :: f < |rs| && rs[f].holder in line && (forall j | 0 <= j < f :: rs[j].holder == null)
                       && (forall j, k | 0 <= j < k < f :: rs[j] != rs[k])
  {
    if f: nat :| f < |rs| && rs[f].holder in line && (forall j | 0 <= j < f :: rs[j].holder == null)
                 && (forall j, k | 0 <= j < k < f :: rs[j] != rs[k]) {
      assert BlockedAt(rs, f);
    }
  }

  /** At most told, once or more, that a resource is available. */
  predicate OnlyTold(was: QueueStatus, now: QueueStatus) {
    now == was || now == AvailableStatus(was)
  }

  /** told are nodes that a release may tell, among them all waiters. */
  method ReleaseOne(node: NodeImpl, m: Reservable, ghost told: set<NodeImpl>)
    requires (forall n | n in m.waiters :: n in told) && m.Valid()
    modifies m, told`queueStatus
    ensures m.holder == if old(m.holder) == node then null else old(m.holder)
    ensures m.Valid() && m.Waits(node, true)
    ensures forall n | n in told :: OnlyTold(old(n.queueStatus), n.queueStatus)
  {
    if m.holder == node {
      m.Release(node);
    }
    m.AddWaitingNode(node);
  }

  /** Gives back what the node holds and queues it for everything. */
  method ReleaseAndWait(node: NodeImpl, mutexes: seq<Reservable>)
    requires AllValid(mutexes)
    modifies mutexes, AllWaiters(mutexes)`queueStatus, node`queueStatus
    ensures AllValid(mutexes)
    ensures forall m | m in mutexes ::
      m.holder == (if old(m.holder) == node then null else old(m.holder)) && m.Waits(node, true)
    ensures forall n | n in old(AllWaiters(mutexes)) + {node} :: OnlyTold(old(n.queueStatus), n.queueStatus)
  {
    ghost var told := AllWaiters(mutexes) + {node};
    var i := 0;
    while i < |mutexes|
      invariant 0 <= i <= |mutexes| && AllValid(mutexes)
      invariant forall n | n in told :: OnlyTold(old(n.queueStatus), n.queueStatus)
      invariant forall m | m in mutexes[..i] ::
        m.holder == (if old(m.holder) == node then null else old(m.holder)) && m.Waits(node, true)
      invariant forall m | m in mutexes && m !in mutexes[..i] ::
        m.holder == old(m.holder) && m.waiters == old(m.waiters)
    {
      var m := mutexes[i];
      assert forall n | n in m.waiters :: n in told;
      ReleaseOne(node, m, told);
      assert mutexes[..i + 1] == mutexes[..i] + [m];
      i := i + 1;
    }
    assert mutexes[..i] == mutexes;
  }

  // ----- a pending node's turn -----

  /** What the node needs is free, as far as the source looks. */
  ghost predicate Obtainable(mutexes: seq<Reservable>, variable: Reservable?)
    reads mutexes, variable
  {
    AllFree(mutexes) && (variable != null ==> variable.holder == null)
  }

  /** releaseResourceReservations: the node waits no longer. */
  method ReleaseReservations(node: NodeImpl, mutexes: seq<Reservable>, variable: Reservable?)
    requires AllValid(mutexes) && (variable != null ==> variable.Valid()) && variable !in mutexes
    modifies mutexes`waiters, (if variable == null then {} else {variable})`waiters
    ensures AllValid(mutexes) && forall m | m in mutexes :: m.Waits(node, false)
    ensures variable != null ==> variable.Valid() && variable.Waits(node, false)
  {
    if variable != null {
      variable.RemoveWaitingNode(node);
    }
    var i := 0;
    while i < |mutexes|
      invariant 0 <= i <= |mutexes| && AllValid(mutexes)
      invariant forall m | m in mutexes[..i] :: m.Waits(node, false)
      invariant forall m | m in mutexes && m !in mutexes[..i] :: m.waiters == old(m.waiters)
      invariant variable != null ==> variable.Valid() && variable.Waits(node, false)
    {
      var m := mutexes[i];
      m.RemoveWaitingNode(node);
      assert mutexes[..i + 1] == mutexes[..i] + [m];
      i := i + 1;
    }
    assert mutexes[..i] == mutexes;
  }

  /** An eligible node tries; m is its record before that. */
  method Attempt(exec: PlexilExec, node: NodeImpl, mutexes: seq<Reservable>, variable: Reservable?,
                 ghost line: seq<NodeImpl>, ghost m: NodeRec)
      returns (success: bool, planError: bool)
    requires node in exec.pending && node.Record(PendingQueue) == m && variable !in mutexes
    requires AllValid(mutexes) && (variable != null ==> variable.Valid()) && IsLine(node, line) && node !in line
    modifies exec`stateChanges, exec`pending, node`queueStatus, mutexes, variable, AllWaiters(mutexes)`queueStatus
    ensures success == old(Obtainable(mutexes, variable))
    ensures planError == old(BlockedByAncestor(mutexes, line))
    ensures var k := if success then m.(status := QueueTransition, queue := StateChange)
                     else m.(status := QueuePending);
      node.Record(k.queue) == k && exec.Placed(node, k.queue)
    ensures AllValid(mutexes) && forall r | r in mutexes ::
      && r.holder == (if success then node else if old(r.holder) == node then null else old(r.holder))
      && r.Waits(node, !success)
    ensures variable != null ==>
      && variable.holder == (if success then node else old(variable.holder))
      && variable.Valid() && variable.Waits(node, !success)
  {
    success, planError := TryResourceAcquisition(node, mutexes, variable, line);
    if success {
      exec.RemovePendingNode(node);
      var _ := exec.AddStateChangeNode(node);
    } else {
      node.queueStatus := QueuePending;
    }
  }

  twostate predicate AsBefore(rs: seq<Reservable>)
    reads rs
  {
    forall r | r in rs :: r.waiters == old(r.waiters) && r.holder == old(r.holder)
  }

  /** The node is looked at; if it leaves the pending queue it waits no longer. */
  method LookAtPending(exec: PlexilExec, node: NodeImpl, c: Conds, mutexes: seq<Reservable>, variable: Reservable?)
      returns (eligible: bool)
    requires node in exec.pending && PendingStatus(node.queueStatus) && variable !in mutexes
    requires AllValid(mutexes) && (variable != null ==> variable.Valid()) && NoDuplicates(exec.pending)
    modifies exec`stateChanges, exec`pending, node`queueStatus, node`nextState, node`nextOutcome, node`nextFailure,
             mutexes`waiters, (if variable == null then {} else {variable})`waiters
    ensures var n, d := old(node.Record(PendingQueue)),
                        Dest(node.kind, node.state, node.failure, node.ParentNow(), c);
      var m := LookedAt(n, d);
      && eligible == Attempts(n, d) && node.Record(m.queue) == m && exec.Placed(node, m.queue)
      && Untried(node, mutexes, variable, m.queue == PendingQueue)
    ensures eligible ==> AsBefore(mutexes) && (variable != null ==> variable.waiters == old(variable.waiters))
    ensures eligible ==> exec.pending == old(exec.pending) && exec.stateChanges == old(exec.stateChanges)
                         && node in exec.pending
    ensures AllValid(mutexes) && (variable != null ==> variable.Valid())
  {
    WithoutOne(exec.pending, node);
    eligible := exec.ResourceCheckEligible(node, c);
    if node !in exec.pending {
      ReleaseReservations(node, mutexes, variable);
    }
  }

  /** What an attempt leaves of the resources. */
  twostate predicate Tried(node: NodeImpl, mutexes: seq<Reservable>, variable: Reservable?, success: bool)
    reads mutexes, variable
  {
    && (forall r | r in mutexes ::
          && r.holder == (if success then node else if old(r.holder) == node then null else old(r.holder))
          && r.Waits(node, !success))
    && (variable != null ==>
          variable.holder == (if success then node else old(variable.holder)) && variable.Waits(node, !success))
  }

  /** What looking at the node leaves of them. */
  twostate predicate Untried(node: NodeImpl, mutexes: seq<Reservable>, variable: Reservable?, stays: bool)
    reads mutexes, variable
  {
    && (forall r | r in mutexes :: r.holder == old(r.holder) && r.Waits(node, stays && node in old(r.waiters)))
    && (variable != null ==>
          variable.holder == old(variable.holder) && variable.Waits(node, stays && node in old(variable.waiters)))
  }

  /** The node is looked at, and tries if it may. */
  method LookAndTry(exec: PlexilExec, node: NodeImpl, c: Conds, mutexes: seq<Reservable>, variable: Reservable?,
                    ghost line: seq<NodeImpl>)
      returns (planError: bool)
    requires node in exec.pending && PendingStatus(node.queueStatus) && variable !in mutexes
    requires AllValid(mutexes) && (variable != null ==> variable.Valid()) && IsLine(node, line) && node !in line
    requires NoDuplicates(exec.pending)
    modifies exec`stateChanges, exec`pending, node`queueStatus, node`nextState, node`nextOutcome, node`nextFailure,
             mutexes, variable, AllWaiters(mutexes)`queueStatus
    ensures var n, d, free := old(node.Record(PendingQueue)),
                              Dest(node.kind, node.state, node.failure, node.ParentNow(), c),
                              old(Obtainable(mutexes, variable));
      var m := LookedAt(n, d);
      var k := if !Attempts(n, d) then m else if free then m.(status := QueueTransition, queue := StateChange)
               else m.(status := QueuePending);
      && node.Record(k.queue) == k && exec.Placed(node, k.queue)
      && planError == (Attempts(n, d) && old(BlockedByAncestor(mutexes, line)))
      && if Attempts(n, d) then Tried(node, mutexes, variable, free)
         else Untried(node, mutexes, variable, m.queue == PendingQueue)
  {
    ghost var n, d := node.Record(PendingQueue), Dest(node.kind, node.state, node.failure, node.ParentNow(), c);
    planError := false;
    ghost var waiters := AllWaiters(mutexes);
    var eligible := LookAtPending(exec, node, c, mutexes, variable);
    if eligible {
      assert AllWaiters(mutexes) == waiters && Obtainable(mutexes, variable) == old(Obtainable(mutexes, variable));
      assert BlockedByAncestor(mutexes, line) == old(BlockedByAncestor(mutexes, line));
      var success;
      success, planError := Attempt(exec, node, mutexes, variable, line, LookedAt(n, d));
    }
  }

  /** A pending node's turn in resolveResourceConflicts: if it is eligible it tries to acquire
      what it needs; its record and queue are then those the step system prescribes; the
      resources are its own, or given back, or, without an attempt, untouched; and it waits for
      them exactly if it is still pending and has tried, now or before. */
  method ResolveTurn(exec: PlexilExec, node: NodeImpl, c: Conds, mutexes: seq<Reservable>, variable: Reservable?,
                     ghost line: seq<NodeImpl>)
      returns (planError: bool)
    requires node in exec.pending && PendingStatus(node.queueStatus) && variable !in mutexes
    requires AllValid(mutexes) && (variable != null ==> variable.Valid()) && IsLine(node, line) && node !in line
    requires NoDuplicates(exec.pending)
    modifies exec`stateChanges, exec`pending, node`queueStatus, node`nextState, node`nextOutcome, node`nextFailure,
             mutexes, variable, AllWaiters(mutexes)`queueStatus
    ensures var n, d, free := old(node.Record(PendingQueue)),
                              Dest(node.kind, node.state, node.failure, node.ParentNow(), c),
                              old(Obtainable(mutexes, variable));
      var q := Resolved(n, d, free).queue;
      && node.Record(q) == Resolved(n, d, free)
      && exec.Placed(node, q)
      && (forall m | m in mutexes ::
            && m.holder == (if !Attempts(n, d) then old(m.holder) else if free then node
                            else if old(m.holder) == node then null else old(m.holder))
            && m.Waits(node, q == PendingQueue && (Attempts(n, d) || node in old(m.waiters))))
      && planError == (Attempts(n, d) && old(BlockedByAncestor(mutexes, line)))
      && (variable != null ==>
            && variable.holder == (if Attempts(n, d) && free then node else old(variable.holder))
            && variable.Waits(node, q == PendingQueue && (Attempts(n, d) || node in old(variable.waiters))))
  {
    ghost var n, d := node.Record(PendingQueue), Dest(node.kind, node.state, node.failure, node.ParentNow(), c);
    LookedAtThenTried(n, d, Obtainable(mutexes, variable));
    planError := LookAndTry(exec, node, c, mutexes, variable, line);
  }

  // ----- giving resources back -----

  /** What a node that enters a state gives back before the state is set: its mutexes on
      ITERATION_ENDED, but not from WAITING, and on FINISHED, but only from WAITING; the
      variable of an Assignment on ITERATION_ENDED likewise, and on FINISHED from FAILING. */
  method ReleaseOnEntry(node: NodeImpl, to: NodeState, mutexes: seq<Reservable>, variable: Reservable?)
    requires variable !in mutexes && (variable != null ==> node.kind == Assignment)
    modifies mutexes, variable, AllWaiters(mutexes)`queueStatus,
             (if variable == null then {} else Waiters(variable))`queueStatus
    ensures forall m | m in mutexes ::
      m.holder == if ReleasesMutexes(node.state, to) && old(m.holder) == node then null else old(m.holder)
    ensures variable != null ==>
      variable.holder ==
        if ReleasesVariable(node.state, to) && old(variable.holder) == node then null else old(variable.holder)
  {
    if variable != null {
      if (to == IterationEnded && node.state != Waiting) || (to == Finished && node.state == Failing) {
        variable.Release(node);
      }
    }
    if (to == IterationEnded && node.state != Waiting) || (to == Finished && node.state == Waiting) {
      ReleaseAll(node, mutexes);
    }
  }

  ghost function Waiters(r: Reservable): set<NodeImpl>
    reads r
  {
    set n | n in r.waiters
  }

  method ReleaseAll(node: NodeImpl, mutexes: seq<Reservable>)
    modifies mutexes`holder, AllWaiters(mutexes)`queueStatus
    ensures forall m | m in mutexes :: m.holder == if old(m.holder) == node then null else old(m.holder)
  {
    var i := 0;
    while i < |mutexes|
      invariant 0 <= i <= |mutexes|
      invariant forall m | m in mutexes[..i] :: m.holder == if old(m.holder) == node then null else old(m.holder)
      invariant forall m | m in mutexes && m !in mutexes[..i] :: m.holder == old(m.holder)
    {
      var m := mutexes[i];
      assert m in mutexes;
      assert forall n | n in m.waiters :: n in old(AllWaiters(mutexes));
      m.Release(node);
      assert mutexes[..i + 1] == mutexes[..i] + [m];
      i := i + 1;
    }
    assert mutexes[..i] == mutexes;
  }

  function AvailableStatus(q: QueueStatus): QueueStatus {
    match q
    case QueuePending => QueuePendingTry
    case QueuePendingCheck => QueuePendingTryCheck
    case _ => q
  }

  lemma {:induction false} WithoutOne(queue: seq<NodeImpl>, n: NodeImpl)
    requires NoDuplicates(queue)
    ensures NoDuplicates(WalkedQueue.Without(queue, n)) && n !in WalkedQueue.Without(queue, n)
    ensures forall m | m in WalkedQueue.Without(queue, n) :: m in queue
    ensures forall m | m in queue :: m == n || m in WalkedQueue.Without(queue, n)
  {
    var at := WalkedQueue.WithoutIsPart(queue, n);
    var rest := WalkedQueue.Without(queue, n);
    forall m | m in queue ensures m == n || m in rest {
      var k :| 0 <= k < |queue| && queue[k] == m;
      assert k == at || rest[if k < at then k else k - 1] == m;
    }
  }
}
