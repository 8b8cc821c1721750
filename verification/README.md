# PLEXIL executive: verified model

This project models the parts of the PLEXIL system in which most can go wrong, and proves
what they keep, over all plans, runs and inputs.

- **Nodes and plans.** `NodeLogic` says where a node of each type (Empty, List, Assignment,
  Command) goes from each state, and what its handlers do to its conditions' activation
  counts. `Conditions` builds the condition slots. `Decisions` says what every node of a plan
  decides in terms of the values of its authors' conditions alone. `PlanMachine` puts nodes together into a
  plan in execution: one step for every thing the executive does (evaluate a candidate, look at
  the pending nodes of one priority, let one of them try its resources, tell a waiting node that
  a resource has been given back, commit a decided move, execute or retract an assignment) and
  for what reaches it from outside (notifications, new condition values). The pending queue is in
  its order of priority and time, and whoever waits for a resource that is given back is told
  before anything else can happen. A plan is any forest; a run is any sequence of enabled steps,
  so every order of commits, and every time at which a notification can come, is covered.
  `PlanInvariant`, `WakeUp`, `StructuredIteration`, `Termination`, `Resources`, `Contention`
  (pending queue and waiting lists), `TurnOrder`, `Activation`, `Rollback` and
  `RecordedOutcomes` prove what each step keeps;
  `ActiveConditions` says which expressions are active, slots of several nodes sharing them;
  `PlanTheorems` states the results for reachable states; `EndElision` says
  exactly when leaving out a list's default End matters; `Witnesses` gives concrete runs into
  the states in which the program departs from its own comments. `ExecLoop` is the loop of the
  executive's step(), proved to be a run of this step system that comes to rest.
- **The same as objects.** `NodeClass` has the nodes and the executive's queues as classes,
  branch by branch as the program has them, each method proved to do what the functions of
  `NodeLogic` and `PlanMachine` say. `ResourceClass` does this for mutexes, assignment variables
  and their waiting lists, `LinkedQueue` for the queues of nodes linked through one shared next
  pointer and the walk over the pending one (its results on sequences are in `WalkedQueue`),
  `Timepoints` for the linked list of state start and end times. `SideEffects` says what a move
  leaves for the executive to do, alike in the objects, the steps and the loop.
- **The read-write lock.** `ReadWriteLock` is a step system over any number of threads, one
  step per lock operation or access to the count; `ReadWriteLockClass` has the lock's methods,
  each operation proved to be such a step.
- **Checkpoint saves.** `SaveManager` has every state a save directory passes through,
  `BootHistory` whole runs of starts, saves and crashes, `SaveManagerClass` the save manager
  as an object on a directory object.
- **The input queue.** `InputQueue` is the linked queue and free list on the heap,
  `InterfaceManager` its draining and the marks by which a caller waits.

Conditions are evaluated in three-valued logic. The values of the plan author's conditions,
the command handles, a Command's completion and abort conditions, right-hand sides of
assignments, times and the operating system's answers are inputs, and arbitrary.

Within a micro-step condition values do not change: they are set when checking begins. What
`m_nextState` and its companions hold is part of a node's record, because a stale outcome is
not cleared when a node is evaluated again.

## Where the program and its comments differ

The model follows the program.

- A node taken off the pending queue with status PENDING_CHECK gets its status overwritten
  with PENDING after it has left the queue (`src/exec/PlexilExec.cc:490-506`). If it could no
  longer move, nothing ever checks it again.
- Each pending node is said to be checked at each step (`src/exec/PlexilExec.cc:272` and `:465`).
  The walk over the pending queue goes on by the next pointer of the node just looked at
  (`src/exec/PlexilExec.cc:557-563`), and a node that leaves the queue then has none any more
  (`src/utils/LinkedQueue.hh:226`; all queues share `src/exec/NodeImpl.hh:824`). No node behind it
  gets a turn in that pass, of whatever priority (`PlanTheorems.TurnsAreExact`), and the loop can
  come to rest with a node that has been told its mutex is free
  (`Witnesses.ATurnIsDenied`).
- `notify` has no arm for PENDING_TRY_CHECK and reports an error
  (`src/exec/NodeImpl.cc:574-625`).
- `transitionToFinished` says it releases mutexes when coming from FAILING and tests WAITING
  (`src/exec/NodeImpl.cc:1379-1380`). A node that finishes from EXECUTING or FAILING keeps its
  mutexes until it is skipped or tries to acquire them again; that attempt fails on its own
  mutexes, frees them, and leaves the node waiting for an announcement that nobody need make. It
  is the only way in which a refused node can be waiting for something no other node holds
  (`PlanTheorems.NoLostResourceWakeUp`, `PlanTheorems.SelfRefusalsAreExact`).
- An iteration that ends by a failed pre-condition leaves the children of a list INACTIVE, not
  FINISHED (`Witnesses.AFailedPreConditionLeavesChildrenInactive`).
- A list leaves FINISHING or FAILING as soon as every child is WAITING or FINISHED
  (`src/exec/ListNode.cc:121-138`), so a child that goes back to WAITING can outlive the
  iteration. So it is when an End or Exit (or another interruption) is true while the child
  cannot be stopped by it, and no longer when the child waits again. What is left behind
  is always a child that was WAITING when the list left
  (`PlanTheorems.OnlyWaitingChildrenAreLeft`); it can even start under the ended list, if it
  was decided in the same micro-step (`Witnesses.ALeftoverChildStarts`).
- A list stops activating the ancestor conditions it keeps for its children when it ends its
  iteration. Children activate none of these conditions themselves: the functions that would are
  empty (`src/exec/NodeImpl.cc:1697-1703`). A leftover child therefore reads such a condition
  inactive exactly if no list at or below the one that supplied it is running and that one, if it
  inherits none itself, does not keep its own slot active
  (`PlanTheorems.ChildConditionsAreActive`). It reads it active if, for instance, it is the
  condition of an outer list that is still executing; it does happen that it reads it inactive
  (`Witnesses.AnInactiveConditionIsRead`), which the checks at `src/exec/NodeImpl.cc:983-1045`
  report.
- A Command activates Exit again on entry to EXECUTING (`src/exec/CommandNode.cc:205`).
- The default End of a list is not always false when a child evaluates ancestor-end, as the
  comments at `src/exec/ListNode.cc:299-305` have it: it is true once an ancestor's only
  unfinished child has finished, with nodes below that one still waiting. The elision changes a
  decision exactly if some ancestor's default End is met, no ancestor's own End is true, and the
  node's state asks for ancestor-end (`EndElision.ElisionMattersExactly`); and this happens in a
  run (`Witnesses.TheElisionMatters`). Until an ancestor has finished it changes nothing.
- The numbers of marks wrap after 2^32. From then on the mark numbered 0 counts as processed
  while it is still queued (`src/app-framework/ExecApplication.cc:684-696`).
- `if (!mkdir_p(...))` takes success for failure (`examples/checkpoint/SimpleSaveManager.cc:372`):
  the first save into a missing directory is not made, and its command is reported successful.
- Commands are reported successful also when the save failed, and a save is reported made also
  when its file could not be renamed.

## Model

| member | source | states |
|---|---|---|
| `PlanTheorems.OutcomesAlwaysFit` | src/exec/NodeImpl.cc:739-851 | In every reachable state of every plan, outcome and failure type fit the state (none exactly in INACTIVE, WAITING, EXECUTING and FINISHING; SUCCESS and SKIPPED without a failure type; INTERRUPTED only with EXITED or PARENT_EXITED; ITERATION_ENDED never with a PARENT_* type), and no error arm of a transition or of a destination computation is reached |
| `PlanTheorems.RecordedOutcomesAreExact` | src/exec/NodeImpl.cc:1132-1217 | Along every run, what a node at work records when it fails or ends its iteration is decided by the values of the conditions at the moment of the move: each failure type, and SUCCESS, by an iff, in the order ancestor's Exit, own Exit, ancestor's Invariant, own Invariant, Post |
| `PlanTheorems.UnstartedNodesSayWhy` | src/exec/NodeImpl.cc:983-1085 | A waiting node that does not execute records SKIPPED exactly if a skip condition holds at the move, and PRE_CONDITION_FAILED exactly if none does, Start is met and Pre is not |
| `PlanTheorems.RepeatsAreExact` | src/exec/NodeImpl.cc:1269-1341 | A node leaves an ended iteration for WAITING exactly if, at the move, Repeat is true and no ancestor exits, fails or ends; on finishing it records an ancestor's exit or failure and otherwise keeps what the iteration recorded |
| `PlanTheorems.NoLostWakeUp` | src/exec/NodeImpl.cc:574-625 | A child that is INACTIVE under an EXECUTING or FINISHED list, or FINISHED under a WAITING one, always has a check pending, in any commit order; a child that is INACTIVE or FINISHED with no check pending would stay where it is if it were polled, whatever the conditions are worth |
| `PlanTheorems.NotificationsAreKept` | src/exec/NodeImpl.cc:574-625 | After a notification the node's status asks for a check, along every run, until it is evaluated or has its turn in the pending queue, or is a root that finishes |
| `WakeUp.ToldIfItMayMove` | src/exec/ListNode.cc:406-427 | The children a list tells of its new state are exactly those resting ones that, for some values of the conditions, this state makes move |
| `PlanTheorems.ChildrenStayInsideTheList` | src/exec/ListNode.cc:461-545 | At every point of a run, a list with its default End that nothing can interrupt has a started child only while EXECUTING, has only finished children in FINISHING and in an ended iteration that did not fail its pre-condition, and never fails |
| `PlanTheorems.IterationBoundaries` | src/exec/ListNode.cc:406-427 | Between micro-steps, the children of such a list in ITERATION_ENDED are FINISHED exactly if the iteration did not end by a failed pre-condition, and INACTIVE exactly if it did; when it enters EXECUTING from WAITING every child is INACTIVE |
| `PlanTheorems.OnlyWaitingChildrenAreLeft` | src/exec/ListNode.cc:121-138 | For every list, structured or not: a child of a list that has just left FINISHING or FAILING was WAITING or FINISHED; if finished it stays so, and only a waiting one can be anything else under the ended list |
| `PlanTheorems.RunsAreBounded` | src/exec/NodeImpl.cc:1269-1401 | The moves of any run are at most a budget computed from the shape of the plan and the repeats that fired; so a run with finitely many repeats makes finitely many moves, bounded per node by its depth and the repeats of it and its ancestors |
| `PlanTheorems.RepeatsBoundTheRun` | src/exec/NodeImpl.cc:1269-1341 | The number of moves of any run is at most the budget for the times each node goes from ITERATION_ENDED to WAITING in it |
| `PlanTheorems.ResourcesAreExclusive` | src/exec/NodeImpl.cc:641-702 | In every reachable state no two nodes in EXECUTING, FINISHING or FAILING use a common mutex, and no two Assignments at work have the same variable |
| `PlanTheorems.HoldersAreExact` | src/exec/NodeImpl.cc:1258-1266 | A mutex is held by a node exactly if the node uses it and is running, has just been granted it, or left it behind on a move into FINISHED |
| `PlanTheorems.EndedIterationsHoldNothing` | src/exec/NodeImpl.cc:1258-1266 | A node that has just ended its iteration out of a running state holds no mutex, and neither then nor when it finishes instead does it hold a variable |
| `PlanTheorems.VariableHoldersAreExact` | src/exec/AssignmentNode.cc:377-404 | A variable is held by a node exactly if the node is an Assignment to it that is EXECUTING, FAILING, or has just been granted it |
| `PlanTheorems.LeaksAreExact` | src/exec/NodeImpl.cc:1377-1384 | A mutex left behind blocks every user of it and is given back exactly when its holder is skipped from WAITING or next tries to acquire; that attempt fails on the node's own mutexes and leaves it pending although they are free |
| `PlanTheorems.LostNodesAreExact` | src/exec/PlexilExec.cc:486-506 | A node gets lost (status pending, in no queue) by exactly one thing, a turn with status PENDING_CHECK at which it can no longer move; and no continuation of the run ever moves it again |
| `PlanTheorems.NoLostResourceWakeUp` | src/expr/Reservable.cc:78-97 | When nobody is still to be told of a resource, a pending node that has been refused and not told to try again has one of its mutexes or its variable held by another node, or its last attempt failed on nothing but its own left-behind mutex |
| `PlanTheorems.FreedResourcesAreAnnounced` | src/expr/Reservable.cc:85-96 | When a move or a failed attempt gives back a mutex or variable that a refused node needs, that node is to try again before anything else happens |
| `PlanTheorems.SelfRefusalsAreExact` | src/exec/NodeImpl.cc:643-690 | A node comes to be refused by nobody but itself exactly by an attempt with a mutex of its own left behind and nothing it needs held by another |
| `PlanTheorems.TurnsAreExact` | src/exec/PlexilExec.cc:546-591 | In a pass over the pending queue, carried to its end, a node gets its turn exactly if no node before it, of whatever priority, leaves the queue when its eligibility is checked |
| `PlanTheorems.AttemptsFollowTheQueue` | src/exec/PlexilExec.cc:546-591 | Nodes that may try their resources when a pass over the pending queue begins do so in the order of the queue, by priority and then by time |
| `PlanTheorems.TurnsDecide` | src/exec/PlexilExec.cc:486-591 | After its turn a pending node is dropped exactly if it was to check and stays; makes another move exactly if it was to check and decides on one; executes exactly if it still would, was told to try, and all its mutexes and its variable are free; and is pending otherwise |
| `PlanTheorems.TurnsGrantAllOrNothing` | src/exec/NodeImpl.cc:641-691 | After an attempt every mutex of the node is its own, or, if it failed, none is, not even one it had; without an attempt none changes hands |
| `PlanTheorems.CandidatesAreSorted` | src/exec/PlexilExec.cc:291-312 | An evaluated candidate is in no queue exactly if it stays, pending exactly if it is to execute and uses a mutex or assigns a variable, and otherwise among the moves |
| `PlanTheorems.PendingQueueIsExact` | src/utils/LinkedQueue.hh:464-495 | In every reachable state the pending queue has exactly the pending nodes, each once, in order of priority |
| `PlanTheorems.ActivationsAreAccounted` | src/exec/NodeImpl.cc:976-1364 | Every activation count of a node's slots is what its type and state say, plus, for a Command's Exit, the number of entries to EXECUTING; and every local condition is active whenever it may be read |
| `PlanTheorems.ChildConditionsAreActive` | src/exec/ListNode.cc:236-334 | The ancestor condition a child reads was supplied by the nearest list above it that has such a condition, is the same expression in all lists between, and is active (activated through any slot of any node that leads to it) exactly if some list at or below that one is EXECUTING, FINISHING or FAILING, or that one inherits no such condition and keeps its own active |
| `PlanTheorems.RunningListsKeepActive` | src/exec/ListNode.cc:444-459 | A child of a running list finds every ancestor condition active, and so does a child of a list with its default End that nothing can interrupt whenever its decision reads one |
| `ActiveConditions.ActiveExactly` | src/expr/Notifier.cc:88-122 | What a list supplies is active exactly while a list at or below it runs or, if it inherits nothing, while it keeps the condition active itself: no other slot in the plan leads to it |
| `ActiveConditions.FoundIn` | src/exec/ListNode.cc:236-334 | A condition of a node occurs in the slot it was given for and, if the node is a list, in that ancestor slot of it and of every list below, and nowhere else |
| `ActiveConditions.SharedBelow` | src/exec/ListNode.cc:236-334 | Every list below one has that list's ancestor expression in its own ancestor slot, itself or as an argument |
| `PlanTheorems.FailedAssignmentsAreUndone` | src/exec/Assignment.cc:122-160 | An Assignment leaving FAILING has its variable back at the value from before the iteration, one leaving EXECUTING normally has assigned the value fixed at the start, and FAILING is entered only after the acknowledgement |
| `PlanTheorems.IterationsAssignOrUndo` | src/exec/Assignment.cc:122-160 | From the move into EXECUTING to the end of that iteration, whatever other nodes do: on leaving FAILING the variable has the value it had at that move, and on ending the iteration otherwise the value computed at that move |
| `PlanTheorems.WorkIsQueued` | src/exec/AssignmentNode.cc:256-305 | An Assignment is queued for execution exactly while it is EXECUTING and not acknowledged, and for retraction exactly while it is FAILING and not undone |
| `PlanTheorems.ExecutionIsNoticed` | src/exec/Assignment.cc:142-149 | Executing a queued assignment stores the value, raises the flag, which is active, and makes the node a candidate |
| `PlanTheorems.RetractionIsNoticed` | src/exec/Assignment.cc:151-160 | Retracting a queued assignment puts back the value from before the iteration, raises the flag and makes the node a candidate |
| `PlanTheorems.ReachableAll` | src/exec/PlexilExec.cc:249-398 | Every invariant behind these results holds in every state reachable by any sequence of steps |
| `Conditions.AncestorConditionIsFold` | src/exec/ListNode.cc:236-334 | At any depth an ancestor condition is null exactly if no proper ancestor supplies the collected condition, is decisive (true for exit and end, false for invariant) exactly if some proper ancestor's condition is, and unknown exactly if none is decisive and some is unknown |
| `Conditions.InheritedValue` | src/exec/NodeImpl.cc:524-554 | What a node reads of an ancestor condition joins its parent's own condition with what the parent reads, null slots being identities |
| `Conditions.ListSlot` | src/exec/ListNode.cc:246-277 | The ancestor slot of a finalised list is its own condition joined with the one it inherits |
| `Conditions.UnwrappedSlot` | src/exec/NodeImpl.cc:398-407 | Empty and Assignment nodes read their own conditions unwrapped |
| `Conditions.CommandEnd` | src/exec/CommandNode.cc:174-187 | The End a Command reads is null exactly if its author gave none; else it is true exactly if its handle is COMMAND_DENIED, COMMAND_FAILED or COMMAND_INTERFACE_ERROR or the author's End is true, and unknown exactly if the handle is none of these and the author's End is unknown |
| `EndElision.ElisionDropsExactly` | src/exec/ListNode.cc:291-306 | Ancestor-end without the elision is true exactly if the elided one is, or some proper ancestor relies on its default End and all its children have finished |
| `EndElision.ElisionPreservesDecisions` | src/exec/ListNode.cc:299-305 | While no proper ancestor has finished, leaving the default End out of ancestor-end changes no decision of the node, at any depth |
| `EndElision.ElisionMattersExactly` | src/exec/ListNode.cc:324-331 | For every plan, world and node, leaving the default End out changes the decision exactly if some proper ancestor's default End is met, no ancestor's own End is known true, and the decision asks for ancestor-end: in INACTIVE under an EXECUTING list, in WAITING or in ITERATION_ENDED with a Repeat that is not false, past the conditions that come before it |
| `Decisions.WaitingDecides` | src/exec/NodeImpl.cc:983-1085 | For every plan, told in the values of the authors' conditions: a waiting node is skipped exactly if an ancestor's Exit or End or its own Exit or Skip is true or an ancestor's Invariant is false; else it waits on exactly if its Start is there and not true, fails exactly if Start is met and its Pre is there and not true, and executes exactly if both are met |
| `Decisions.InterruptionsDecide` | src/exec/AssignmentNode.cc:145-225 | A node at work records PARENT_EXITED exactly if an ancestor's Exit is true, EXITED exactly if not and its own Exit is, PARENT_FAILED exactly if neither and an ancestor's Invariant is false, INVARIANT_CONDITION_FAILED exactly if none of these and its own is; with INTERRUPTED or FAILURE, and into FAILING, or, for an Empty node, FINISHED or ITERATION_ENDED |
| `Decisions.ExecutingDecides` | src/exec/NodeImpl.cc:1187-1217 | A node that executes undisturbed stays exactly while its End (for a list without one, all children finished; for a Command also a denied, failed or unsendable command) is not met or an Assignment is not acknowledged; then a list or Command finishes up, and any other node ends its iteration with SUCCESS exactly if its Post is absent or true and with POST_CONDITION_FAILED otherwise |
| `Decisions.FinishingDecides` | src/exec/ListNode.cc:640-682 | A node that finishes up undisturbed stays exactly until its children are waiting or finished, or its action complete, and then records SUCCESS exactly if its Post is absent or true, and POST_CONDITION_FAILED otherwise |
| `Decisions.FailingDecides` | src/exec/ListNode.cc:731-770 | A failing node stays exactly until its children are out of the way, its variable is restored, or its abort is complete, and is then finished exactly if the recorded failure came from its parent |
| `Decisions.IterationEndedDecides` | src/exec/NodeImpl.cc:1269-1341 | An ended iteration is followed by another exactly if Repeat is true and no ancestor exits, fails or ends; an unknown Repeat alone makes the node stay |
| `Decisions.RestingDecides` | src/exec/NodeImpl.cc:870-950 | A root becomes ready; a child becomes ready, is skipped or stays exactly as its list's state and the ancestors' Exit, Invariant and End say; a finished one is reset exactly under a waiting list |
| `Decisions.UnacknowledgedStays` | src/exec/AssignmentNode.cc:145-160 | An Assignment that is not acknowledged stays in EXECUTING whatever its conditions are |
| `Decisions.CutShortCommandFinishes` | src/exec/CommandNode.cc:174-187 | A Command that was denied, that failed or that could not be sent goes to FINISHING, if undisturbed, whatever its own End is worth |
| `NodeLogic.DestIsLegal` | src/exec/NodeImpl.cc:739-774 | A node in a state of its type never computes an error, and decides only on edges of its transition diagram |
| `NodeLogic.OutcomeTableKept` | src/exec/NodeImpl.cc:822-828 | Committing any decision keeps the table of outcomes and failure types |
| `NodeLogic.DeltaFollowsDiagram` | src/exec/CommandNode.cc:200-207 | Along every legal edge the handlers change each activation count from what the old state lists as active to what the new one lists, but for one Exit too many when a Command starts |
| `NodeLogic.DestReadsOnly` | src/exec/NodeImpl.cc:983-1082 | The decision depends on no local condition outside those the state is listed to read |
| `NodeLogic.EveryReadMatters` | src/exec/NodeImpl.cc:983-1082 | Each condition listed as read in a state makes a difference there for some values of the others |
| `NodeLogic.ReadIsActive` | src/exec/NodeImpl.cc:1122-1217 | Every local condition a state reads is one the state keeps active |
| `NodeLogic.ActiveIsRead` | src/exec/NodeImpl.cc:1122-1217 | And nothing else is kept active but what a list keeps for its children |
| `NodeLogic.AncestorsUnread` | src/exec/NodeImpl.cc:870-950 | The ancestor conditions are read in no other situations than those listed: elsewhere a decision does not depend on them |
| `Termination.OnlyRepeatAndResetDescend` | src/exec/NodeImpl.cc:1344-1407 | The only edges that do not climb the ranking of states are the repeat and the reset |
| `Termination.ResetsWithinBudget` | src/exec/ListNode.cc:406-427 | A node is reset at most once per proper ancestor and once per repeat of one |
| `Termination.RunCountsMoves` | src/exec/PlexilExec.cc:343-352 | The moves counted in the nodes' histories are the commits of the run |
| `WakeUp.PollingAddsNothing` | src/exec/NodeImpl.cc:870-950 | Evaluating an inactive or finished child without a pending check would decide to stay |
| `WakeUp.InternalNotificationsAreLegal` | src/exec/ListNode.cc:406-427 | No notification that setState() sends, to the children concerned or to the moving node itself, meets a queue status that notify reports as an error |
| `WakeUp.LostExactlyWhen` | src/exec/PlexilExec.cc:490-506 | The one step after which a node is in no queue though its status is pending |
| `WakeUp.StuckForever` | src/exec/PlexilExec.cc:546-591 | Such a node is WAITING and stays so along every run |
| `Resources.LeakEndsExactly` | src/exec/NodeImpl.cc:680-688 | A left-behind mutex stays held across every step but the two that give it back |
| `Resources.OwnLeakFailsTheAttempt` | src/exec/NodeImpl.cc:647-690 | An attempt of the node that left it behind fails, frees the node's mutexes, and leaves the node pending |
| `Resources.FinishingEarlyLeaks` | src/exec/NodeImpl.cc:1377-1384 | A node that moves to FINISHED from EXECUTING or FAILING keeps every mutex it uses |
| `Rollback.IterationEndsRolledBackOrAssigned` | src/exec/AssignmentNode.cc:256-343 | What the variable holds at each end of an Assignment's iteration |
| `Rollback.MovesOnlyWhenDone` | src/exec/AssignmentNode.cc:145-160 | An Assignment decides to leave EXECUTING only acknowledged and FAILING only undone |
| `Activation.ReadConditionsAreActive` | src/exec/NodeImpl.cc:983-1085 | A non-null local condition that may be read has a positive activation count |
| `Activation.CountsNeverNegative` | src/expr/Notifier.cc:117-122 | No slot is deactivated more often than it was activated |
| `StructuredIteration.StepEndsInStep` | src/exec/ListNode.cc:585-682 | When the moves of a micro-step have all been committed, lists and children are in step again, and a list that has just started finds its children inactive |
| `Witnesses.AWaitingNodeGetsLost` | src/exec/PlexilExec.cc:490-506 | A reachable state with a lost node: its Start condition turned false while it was pending on a busy mutex |
| `Witnesses.ATurnIsDenied` | src/exec/PlexilExec.cc:557-563 | A reachable state at the end of a macro step, with nothing to be checked, in which a pending node has been told to try and its mutex is free: a node before it left the queue when it was looked at, so it had no turn |
| `Witnesses.ANotificationIsRejected` | src/exec/NodeImpl.cc:574-625 | A reachable state in which one more notification of a pending node is an error |
| `Witnesses.AMutexIsLeaked` | src/exec/NodeImpl.cc:1377-1384 | A reachable state in which a finished node still holds its mutex, after its list was told to exit |
| `Witnesses.AWaitingChildOutlivesTheIteration` | src/exec/ListNode.cc:121-138 | A reachable state in which a list's iteration has ended while its child goes on waiting, in no queue |
| `Witnesses.ALeftoverChildStarts` | src/exec/ListNode.cc:585-682 | A reachable state in which a child is EXECUTING under a list in ITERATION_ENDED: both were decided in one micro-step |
| `Witnesses.AnInactiveConditionIsRead` | src/exec/NodeImpl.cc:983-1045 | A reachable state in which a waiting child is about to be evaluated and reads an ancestor-end that is active through no slot of any node |
| `Witnesses.AFailedPreConditionLeavesChildrenInactive` | src/exec/NodeImpl.cc:1062-1082 | A reachable state of a structured list in ITERATION_ENDED with PRE_CONDITION_FAILED whose child is INACTIVE |
| `Witnesses.TheElisionMatters` | src/exec/ListNode.cc:299-305 | A reachable state in which a waiting node is about to be evaluated, reads an active ancestor-end, would be skipped if that contained the default End, and stays because it does not |
| `NodeClass.NodeImpl.Notify` | src/exec/NodeImpl.cc:574-625 | Changes the status and joins the candidates as the status demands; reports exactly the two statuses without an arm |
| `NodeClass.NodeImpl.NotifyResourceAvailable` | src/exec/NodeImpl.cc:704-732 | Marks a pending node for another attempt, and no other |
| `NodeClass.NodeImpl.GetDestState` | src/exec/NodeImpl.cc:739-774 | The decision stored in the next fields is the one the transition diagrams prescribe for the node's type, state, parent and conditions |
| `NodeClass.NodeImpl.GetDestStateFromInactive` | src/exec/NodeImpl.cc:870-950 | A root decides to wait; a child is skipped under a FINISHED list, and under an EXECUTING one waits unless ancestor-exit, -invariant or -end has it skipped; otherwise it stays |
| `NodeClass.NodeImpl.GetDestStateFromWaiting` | src/exec/NodeImpl.cc:983-1085 | Skipped by any of ancestor-exit, Exit, ancestor-invariant, ancestor-end and Skip; stays while Start is not known true; ends the iteration with PRE_CONDITION_FAILED if Pre is not; otherwise executes |
| `NodeClass.NodeImpl.GetDestStateFromExecutingEmpty` | src/exec/NodeImpl.cc:1132-1217 | Interrupted by the first of four conditions, with its outcome and failure type, into FINISHED if the parent is the cause and ITERATION_ENDED if not; stays while End is not known true; otherwise ends the iteration as Post decides |
| `NodeClass.NodeImpl.GetDestStateFromExecutingAssignment` | src/exec/AssignmentNode.cc:145-254 | Stays until acknowledged; then FAILING by the first of four conditions; stays while End is not known true; otherwise ends the iteration as Post decides |
| `NodeClass.NodeImpl.GetDestStateFromExecutingList` | src/exec/ListNode.cc:461-545 | FAILING by the first of four conditions, with its outcome and failure type; FINISHING once End is known true or null |
| `NodeClass.NodeImpl.GetDestStateFromExecutingCommand` | src/exec/CommandNode.cc:209-293 | The same decision for a Command, whose End is already wrapped |
| `NodeClass.NodeImpl.GetDestStateFromFinishingList` | src/exec/ListNode.cc:585-682 | FAILING by the first of four conditions; the end of the iteration, as Post decides, once all children are waiting or finished |
| `NodeClass.NodeImpl.GetDestStateFromFinishingCommand` | src/exec/CommandNode.cc:329-424 | FAILING by the first of four conditions; the end of the iteration, as Post decides, once the action is complete |
| `NodeClass.NodeImpl.GetDestStateFromFailingAssignment` | src/exec/AssignmentNode.cc:307-343 | Stays until the abort is complete; then FINISHED if the parent was the cause, else ITERATION_ENDED, outcome and failure type untouched |
| `NodeClass.NodeImpl.GetDestStateFromFailingList` | src/exec/ListNode.cc:731-770 | Stays until all children are waiting or finished; then FINISHED if the parent was the cause, else ITERATION_ENDED |
| `NodeClass.NodeImpl.GetDestStateFromFailingCommand` | src/exec/CommandNode.cc:464-499 | Stays until the abort is known complete; then FINISHED if the parent was the cause, else ITERATION_ENDED |
| `NodeClass.NodeImpl.GetDestStateFromIterationEnded` | src/exec/NodeImpl.cc:1269-1341 | FINISHED with the parent's outcome on ancestor-exit or -invariant, and with its own on ancestor-end; stays while Repeat is unknown; waits again if it is true; otherwise FINISHED |
| `NodeClass.NodeImpl.GetDestStateFromFinished` | src/exec/NodeImpl.cc:1387-1401 | Reset to INACTIVE exactly under a WAITING list |
| `NodeClass.NodeImpl.TransitionFrom` | src/exec/NodeImpl.cc:790-802 | The exit handler of each type and state changes the activation counts as the diagrams demand, switches off local variables and action on the way out of the running states, and resets outcome and failure type on a reset |
| `NodeClass.NodeImpl.TransitionTo` | src/exec/NodeImpl.cc:805-818 | The entry handler changes the counts as the diagrams demand, activates local variables on EXECUTING, clears an Assignment's flags on activation from rest, and queues a retraction or an abort on FAILING |
| `NodeClass.NodeImpl.EnterState` | src/exec/NodeImpl.cc:1478-1491 | A finished root leaves the candidates for the finished roots; any other node is notified |
| `NodeClass.NodeImpl.NotifyChildren` | src/exec/ListNode.cc:406-427 | Exactly the children the new state concerns are notified, and those that were in no queue join the candidates in the order of the children |
| `NodeClass.NodeImpl.Transition` | src/exec/NodeImpl.cc:780-851 | The node's fields after the move are those of the step system's committed record, its variable is saved if it starts, what it works with is active exactly while it runs, exactly the children concerned are told, and the candidates, finished roots, assignments, retractions, commands and aborts are queued as the new state demands |
| `NodeClass.NodeImpl.Execute` | src/exec/AssignmentNode.cc:256-264 | An Assignment saves its variable, fixes the value, activates its right-hand side and is queued; a Command is activated and queued |
| `NodeClass.NodeImpl.ExecuteAssignment` | src/exec/Assignment.cc:142-149 | The variable takes the fixed value; an active flag is raised and the node notified |
| `NodeClass.NodeImpl.RetractAssignment` | src/exec/Assignment.cc:151-160 | The variable takes back the saved value; an active flag is raised and the node notified |
| `NodeClass.NodeImpl.AllChildrenFinished` | src/exec/ListNode.cc:61-73 | True exactly if every child is FINISHED |
| `NodeClass.NodeImpl.AllChildrenWaitingOrFinished` | src/exec/ListNode.cc:121-138 | True exactly if every child is WAITING or FINISHED |
| `NodeClass.NodeImpl.CreateConditionWrappers` | src/exec/ListNode.cc:236-334 | The slots after wrapping are those from which the fold over the ancestors is proved |
| `NodeClass.PlexilExec.GetCandidateNode` | src/exec/PlexilExec.cc:660-669 | Takes the first candidate |
| `NodeClass.PlexilExec.AddStateChangeNode` | src/exec/PlexilExec.cc:689-734 | Queues a node with no status; any other status is an error and changes nothing |
| `NodeClass.PlexilExec.GetStateChangeNode` | src/exec/PlexilExec.cc:673-685 | Takes the next decided move, and makes the node a candidate again if it was notified meanwhile |
| `NodeClass.PlexilExec.CheckNext` | src/exec/PlexilExec.cc:291-312 | A candidate's turn: its record becomes the one the step system prescribes and it is in the queue named there, or in none |
| `NodeClass.PlexilExec.AddPendingNode` | src/exec/PlexilExec.cc:738-745 | The node is put behind all pending ones whose priority number is not greater, with status PENDING_TRY |
| `NodeClass.PlexilExec.ResourceCheckEligible` | src/exec/PlexilExec.cc:486-542 | Eligible exactly if the node is to try its resources; its record and its place in the queues are those of the look of the step system, with the status overwritten in the PENDING_CHECK arm whatever was done before |
| `NodeClass.PlexilExec.CommitNext` | src/exec/PlexilExec.cc:343-352 | The next queued move is taken and committed: record, variable, children and every queue of the executive are afterwards those of Transition on the node as it waited, a check asked for meanwhile included |
| `NodeClass.PlexilExec.PerformAssignments` | src/exec/PlexilExec.cc:594-606 | Every queued assignment stores its value and is acknowledged, every queued retraction restores the saved value; both queues are emptied, and exactly the nodes whose flag was active and not yet up are notified, in the order of the queues |
| `NodeClass.MovedIsCommitted` | src/exec/NodeImpl.cc:780-851 | A node whose fields have changed as the handlers change them is the committed record of the step system |
| `NodeClass.LeftIsDelta` | src/exec/NodeImpl.cc:1086-1116 | Running the exit handler's activations and deactivations one after the other changes each count by what the diagrams say, for every type and edge |
| `NodeClass.EnteredIsDelta` | src/exec/ListNode.cc:444-459 | The same for the entry handlers |
| `NodeClass.PoppedScene` | src/exec/PlexilExec.cc:673-685 | Taking a node off the queue and then committing it comes to the same as committing it as it waited |
| `SideEffects.QueuedWorkIsExact` | src/exec/NodeImpl.cc:820-851 | Committing a move appends the node to the assignments, the retractions, the commands and the aborts exactly for (Assignment, EXECUTING), (Assignment, FAILING), (Command, EXECUTING) and (Command, FAILING), and changes these lists in no other way |
| `SideEffects.CandidatesAreExact` | src/exec/NodeImpl.cc:1478-1491 | A root that finishes leaves the candidates and joins the finished roots; any other node without a check pending becomes a candidate; the children told follow in order |
| `SideEffects.ActiveWhileRunning` | src/exec/NodeImpl.cc:780-851 | Local variables, and the action of an Assignment or Command, are activated on entry to EXECUTING and deactivated when the node leaves the running states |
| `SideEffects.SameWorkInTheSteps` | src/exec/AssignmentNode.cc:256-305 | A move queues an assignment or a retraction in the step system exactly if it does so in the object's queues |
| `SideEffects.SameCommandsInTheLoop` | src/exec/PlexilExec.cc:370-375 | The loop's test counts a move as queueing a command exactly if the object's move changes the commands or the aborts |
| `SideEffects.ExecutionIsTheSteps` | src/exec/Assignment.cc:142-149 | Executing an assignment in the step system is what the object's method does: value, flag, status and candidates |
| `SideEffects.RetractionIsTheSteps` | src/exec/Assignment.cc:151-160 | And so is retracting one |
| `ExecLoop.Step` | src/exec/PlexilExec.cc:249-398 | The macro step stops after a pass exactly if no move was decided, or an assignment, retraction, command or abort is queued, or no node is a candidate at its end (or its inputs are used up); then it performs all queued assignments and retractions and nothing else; the whole is a run of the step system, and it comes to rest before more passes than the budget of moves have been made |
| `ExecLoop.Pass` | src/exec/PlexilExec.cc:283-376 | One pass: a run that checks candidates until there are none and walks the pending queue to the end of the walk, and, if a move was decided, one that commits moves until none is queued and notifies the nodes whose conditions changed; whoever waits for a resource that a move or a failed attempt gives back is told right after it; the loop goes on exactly if a move was decided, no side effect is queued and some node is a candidate |
| `ExecLoop.EarlierPassesWentOn` | src/exec/PlexilExec.cc:370-376 | Every pass but the last made a move, queued no side effect and left a candidate |
| `ResourceClass.Reservable.Acquire` | src/expr/Reservable.cc:56-73 | Succeeds exactly if nobody holds the resource, not even the caller; on failure the caller waits, on success it waits no longer, and the others wait as they did |
| `ResourceClass.Reservable.Release` | src/expr/Reservable.cc:78-97 | Has an effect exactly if the caller is the holder: the resource is free and every waiter told |
| `ResourceClass.AcquireMutexes` | src/exec/NodeImpl.cc:643-661 | Gets all mutexes exactly if all were free and none is listed twice |
| `ResourceClass.TryResourceAcquisition` | src/exec/NodeImpl.cc:641-691 | Succeeds exactly if all mutexes (and the variable) were free, and then holds them all and waits on none; otherwise holds none of the mutexes, not even one it held before, and waits on each and on the variable. A plan error is reported exactly if the first busy mutex is held by an ancestor |
| `ResourceClass.PlanErrorMeans` | src/exec/NodeImpl.cc:647-664 | The plan error is reported exactly if an ancestor holds a mutex and those listed before it are free and different |
| `ResourceClass.ResolveTurn` | src/exec/PlexilExec.cc:546-591 | A pending node's turn with its attempt: its record and queue become those the step system prescribes; the resources are the node's exactly if it attempts and all were free, an attempt that fails gives back the mutexes the node held before; and it is on the waiting lists afterwards exactly if it is still pending and has attempted or was on them |
| `ResourceClass.ReleaseReservations` | src/exec/NodeImpl.cc:693-702 | The node is on no waiting list of its mutexes and its variable any more; the others stay on them |
| `ResourceClass.ReleaseOnEntry` | src/exec/NodeImpl.cc:1377-1384 | On entering a state the node gives back its mutexes and its variable exactly where the step system does, and nobody else's |
| `LinkedQueue.Queue.Push` | src/utils/LinkedQueue.hh:166-178 | The item becomes the last of the linked queue |
| `LinkedQueue.Queue.Pop` | src/utils/LinkedQueue.hh:141-161 | The head goes and its next pointer is null; an empty queue stays as it is |
| `LinkedQueue.Queue.Remove` | src/utils/LinkedQueue.hh:204-228 | The item goes, wherever it is, the others stay linked in their order, and its next pointer is null |
| `LinkedQueue.Queue.Insert` | src/utils/LinkedQueue.hh:464-495 | The item is linked in behind all whose priority number is not greater, and before the others |
| `LinkedQueue.Gather` | src/exec/PlexilExec.cc:551-566 | The walk by next pointers over one priority, while looking at a node may unlink it or put it in another queue: the nodes that may try are those eligible among the ones looked at, only the last of these can have left, and then the next pointer is null and the walk over all priorities is over; otherwise it goes on with the first node of the next priority |
| `WalkedQueue.InsertedInOrder` | src/utils/LinkedQueue.hh:464-495 | Inserting puts the new item after all of its priority and better and before all others, which keep their order, so the queue stays sorted |
| `WalkedQueue.ReachedExactly` | src/exec/PlexilExec.cc:551-591 | A walk over all priorities comes to an item exactly if none before it leaves the queue |
| `WalkedQueue.LookedIsBatch` | src/exec/PlexilExec.cc:551-566 | What is looked at together is all of one priority; only the last of it can have left the queue; it ends at another priority, at the end of the queue, or where an item left, and only then is nothing left of the walk |
| `WalkedQueue.ThoseInOrder` | src/exec/PlexilExec.cc:557-563 | Those picked out to try keep their order |
| `LinkedQueue.WalkOutcome` | src/exec/PlexilExec.cc:551-591 | For every node of a walk: up to one that leaves, those of the first priority are looked at and the eligible among them may try in order; the one that leaves is off the pending queue, and in the other queue exactly if it has another move; all else stays as it was |
| `Timepoints.TimepointLog.LogTransition` | src/exec/NodeImpl.cc:1497-1520 | Every timepoint in the linked list is stamped, cleared or kept as the transition demands, and the current start is the time |
| `Timepoints.TimepointLog.SetState` | src/exec/NodeImpl.cc:1478-1491 | A change of state is logged; entering the same state changes nothing |
| `Timepoints.TimepointLog.GetStateStartTime` | src/exec/NodeImpl.cc:1522-1540 | The current start for the current state, else what the timepoint of that start holds, if there is one |
| `Timepoints.TimepointLog.EnsureTimepoint` | src/exec/NodeImpl.cc:1567-1582 | The recorded timepoint, or a new unknown one at the front of the list; no state gets two starts or two ends |
| `Timepoints.ReplayIsLastStamp` | src/exec/NodeImpl.cc:1497-1520 | After any history a timepoint is known exactly if some change stamped it since the last return to INACTIVE, and holds the time of the last such change |
| `Timepoints.CurrentStartIsLastChange` | src/exec/NodeImpl.cc:1497-1500 | The start of the current state is the time of the last change |
| `Timepoints.EndMeetsNextStart` | src/exec/NodeImpl.cc:1513-1518 | The end of a state just left equals the start of the state entered |
| `Timepoints.StartNotAfterEnd` | src/exec/NodeImpl.cc:1497-1520 | Across resets and repeats, a non-current state with both times known did not end before it started |
| `ReadWriteLock.WriterExcludesEverybody` | examples/checkpoint/ReadWriteLock.hh:60-68 | Under any schedule of any number of threads, a writer in its critical section excludes every reader and every other writer |
| `ReadWriteLock.CountIsTheReaders` | examples/checkpoint/ReadWriteLock.hh:39-58 | Outside sections under r_lock the count is the number of readers admitted, and w_lock is held exactly if there are readers or a writer |
| `ReadWriteLock.NoDeadlock` | examples/checkpoint/ReadWriteLock.hh:39-68 | While any thread is not idle, some such thread can perform its next operation |
| `ReadWriteLock.WaitingWriterGetsCloser` | examples/checkpoint/ReadWriteLock.hh:60-63 | Once a writer owns turn_lock no thread passes the gate, and every operation of another thread but an arrival brings the measure down |
| `ReadWriteLock.WriterWaitsBoundedly` | examples/checkpoint/ReadWriteLock.hh:60-63 | Along any run during which the writer waits, the others perform no more operations than were left to the threads past the gate |
| `ReadWriteLock.SomebodyMakesWay` | examples/checkpoint/ReadWriteLock.hh:60-63 | While w_lock keeps the writer waiting, some thread past the gate can go on |
| `ReadWriteLock.StepKeepsInv` | examples/checkpoint/ReadWriteLock.hh:39-68 | Every operation keeps the accounts of the three locks and the count |
| `ReadWriteLockClass.Lock.BeginRead` | examples/checkpoint/ReadWriteLock.hh:39-49 | Performs its operations up to the first that meets a held lock, each a step of the step system: the reader gets in at once exactly if no writer is about and r_lock is free, and otherwise waits at turn_lock, r_lock or w_lock with the state as it then is |
| `ReadWriteLockClass.Lock.EndRead` | examples/checkpoint/ReadWriteLock.hh:51-58 | Gets out exactly if r_lock is free, and then the count goes down and w_lock is released exactly by the last reader; otherwise waits at r_lock with nothing else changed |
| `ReadWriteLockClass.Lock.BeginWrite` | examples/checkpoint/ReadWriteLock.hh:60-63 | The writer gets both locks exactly if both are free; otherwise it waits at turn_lock, or at w_lock holding turn_lock |
| `ReadWriteLockClass.Lock.EndWrite` | examples/checkpoint/ReadWriteLock.hh:65-68 | Both locks are free again |
| `SaveManager.CrashKeepsASave` | examples/checkpoint/SimpleSaveManager.cc:283-311 | For a crash at any point of a write, the newest save is still the old one, or wholly the new one under the next number |
| `SaveManager.WrittenExactlyIf` | examples/checkpoint/SimpleSaveManager.cc:345-391 | A write adds the new save, as the newest, exactly if the directory existed and the temporary file was written and renamed |
| `SaveManager.SavesStayFew` | examples/checkpoint/SimpleSaveManager.cc:295-301 | With removal on, at no point are there more saves than two or than there were before |
| `SaveManager.OldSavesAreKept` | examples/checkpoint/SimpleSaveManager.cc:295-301 | In every state of a write every old save is there with its contents but, with removal on, the oldest of several; nothing is added but the new save |
| `SaveManager.OldestIsRemoved` | examples/checkpoint/SimpleSaveManager.cc:295-301 | With removal on the oldest of several saves is gone when the write is over |
| `SaveManager.TemporaryFileIsLeft` | examples/checkpoint/SimpleSaveManager.cc:367-391 | A temporary file is left behind, whole or torn, exactly if it was begun and not renamed; a missing directory is there afterwards exactly if it could be made |
| `BootHistory.LoadConsistentIff` | examples/checkpoint/SimpleSaveManager.cc:191-281 | After loading, the number of boots and the boots agree exactly if there was no save, or the newest parsed (and agreed itself), or the stale number was 1 |
| `BootHistory.StartFindsTheLastSave` | examples/checkpoint/SimpleSaveManager.cc:191-281 | After any run of starts, changes, saves and crashes from an empty directory, a start finds this boot followed by exactly the boots of the last completed save, whose boot 0 crashed when it was saved |
| `BootHistory.SavedBootsComeBack` | examples/checkpoint/SimpleSaveManager.cc:313-366 | After a completed save, whatever happens until another is completed, a start brings back every boot that was in memory at the save, with its times, its flag and all its checkpoints, boot 0 with the time of the save as crash time, behind a new boot that has the time of the start, has not crashed, is not ok and has no checkpoints |
| `BootHistory.NumbersIncrease` | examples/checkpoint/SimpleSaveManager.cc:283-292 | Along every run completed saves are never forgotten and get ever greater numbers |
| `BootHistory.EventKeepsInv` | examples/checkpoint/SimpleSaveManager.cc:283-392 | Every event keeps the newest save equal to the last completed one and the number of boots equal to the boots in memory |
| `SaveManagerClass.SimpleSaveManager.FindOldestNewestFiles` | examples/checkpoint/SimpleSaveManager.cc:396-424 | The least and greatest numbers in the directory, in whatever order its entries come |
| `SaveManagerClass.SimpleSaveManager.LoadCrashes` | examples/checkpoint/SimpleSaveManager.cc:191-281 | Works once; leaves in memory what the newest save demands |
| `SaveManagerClass.SimpleSaveManager.WriteOut` | examples/checkpoint/SimpleSaveManager.cc:283-311 | The directory passes through exactly the states of the crash analysis; all queued commands are reported successful whatever happened |
| `SaveManagerClass.SimpleSaveManager.WriteToFile` | examples/checkpoint/SimpleSaveManager.cc:313-392 | True exactly if the directory existed and the file was written; a missing directory is made and then nothing is written |
| `SaveManagerClass.SimpleSaveManager.BuildTree` | examples/checkpoint/SimpleSaveManager.cc:313-366 | The tree written is the memory with the time of the save as boot 0's crash time |
| `SaveManagerClass.SimpleSaveManager.SucceedCommands` | examples/checkpoint/SimpleSaveManager.cc:180-189 | Every queued command is reported, once |
| `InputQueue.SimpleInputQueue.Allocate` | src/app-framework/SimpleInputQueue.cc:62-70 | Takes an entry from the free list if there is one; the queue is unchanged and every entry stays in exactly one place |
| `InputQueue.SimpleInputQueue.Release` | src/app-framework/SimpleInputQueue.cc:72-78 | The client's entry goes to the front of the free list, blank |
| `InputQueue.SimpleInputQueue.Put` | src/app-framework/SimpleInputQueue.cc:80-89 | The client's entry becomes the last of the queue and the tail |
| `InputQueue.SimpleInputQueue.Get` | src/app-framework/SimpleInputQueue.cc:91-102 | The first entry of the queue goes to the client, or nothing if there is none |
| `InputQueue.SimpleInputQueue.Flush` | src/app-framework/SimpleInputQueue.cc:104-112 | All queued entries go to the free list |
| `InputQueue.LinkedTail` | src/app-framework/SimpleInputQueue.cc:91-102 | The rest of an acyclic list is one, and the head is not in it |
| `InterfaceManager.InterfaceManager.MarkQueue` | src/app-framework/InterfaceManager.cc:423-435 | The mark's number is one more than the last, in 32 bits, and the mark is put last |
| `InterfaceManager.InterfaceManager.ProcessQueue` | src/app-framework/InterfaceManager.cc:455-589 | All that was put has been processed in order, each message delivered once; true exactly if something was delivered |
| `InterfaceManager.ItemIsProcessed` | src/app-framework/InterfaceManager.cc:455-589 | Processing the first queued item keeps the accounts of what was put, processed, delivered and marked |
| `InterfaceManager.MessagesExactly` | src/app-framework/InterfaceManager.cc:455-589 | Every message put is delivered, with what it carries, after exactly the messages put before it |
| `InterfaceManager.OnlyMessages` | src/app-framework/InterfaceManager.cc:455-589 | Whatever is delivered was put, in that order |
| `InterfaceManager.MarksExactly` | src/app-framework/InterfaceManager.cc:455-589 | Every mark is noted, after the marks put before it |
| `InterfaceManager.NumbersIncreaseIff` | src/app-framework/InterfaceManager.cc:423-435 | The numbers given out strictly increase exactly if there are fewer than 2^32 |
| `InterfaceManager.WaitingIsExactIff` | src/app-framework/ExecApplication.cc:684-696 | That the last mark noted is not less than a caller's own tells exactly that this mark, and everything put before it, has been processed, for every mark at every time, if and only if fewer than 2^32 marks have been made |
| `InterfaceManager.WrappedMarkIsNotAwaited` | src/app-framework/ExecApplication.cc:684-696 | With 2^32 or more marks: the mark numbered 0 counts as processed while it is still queued, with all before it processed |

## Left out

- NodeClass.NodeImpl.Transition: asks for a move of the transition diagram of the node's type, which PlanTheorems.OutcomesAlwaysFit shows every queued move to be; what the error arms print is not modelled. The mutexes and the variable that the entry handlers give back are in ResourceClass.ReleaseOnEntry, beside it, and the notifications of publishChange() are steps of their own.
- NodeClass.NodeImpl.TransitionFrom: counts the activations of local variables and of the action; what activating them does to their values is not modelled.
- NodeClass.NodeImpl.TransitionTo: as Transition and TransitionFrom; the releases of resources are in ResourceClass.ReleaseOnEntry.
- NodeClass.PlexilExec.CommitNext: as Transition.
- ResourceClass.ResolveTurn: is one node's turn, in which it gives up its places on the waiting lists once it has been looked at, not while. The program looks at all pending nodes of one priority before any of them tries; the step system does, and lets those that may not try have their turn first.
- NodeClass.PlexilExec.PerformAssignments: asks that no two queued assignments share a variable, which PlanTheorems.ResourcesAreExclusive provides.
- ExecLoop.Step: works on the values of the step system, and takes candidates, decided moves and assignments in any order, the pending queue in its own; publishing transitions to listeners and executing outbound commands are left out.
- InterfaceManager.WaitingIsExactIff: is about calls of markQueue that do not overlap one another.
- SaveManager.CrashKeepsASave: takes rename as one step and the removal of a file as another, as the file system promises.
- What the checks on inactive conditions report: when a condition that is read is inactive is proved, the message is not modelled.
- ActiveConditions.FoundIn: takes every condition the plan's author writes as an expression of its own; two that are the same variable are one expression in the program, and active if either is.
- LinkedQueue.Gather: what looking at a node comes to is an input to it; NodeClass.PlexilExec.ResourceCheckEligible computes that.
- Assignments to array elements: the variable is a base variable, and no other writer than an Assignment is modelled.
- What activating a local variable or a destination does to its value.
- The exemption of a literally true End condition from a Command's wrapping: wrapping it changes no value.
- Update and LibraryCall nodes, command arguments, the resource arbiter, deletion of finished plans, plan errors.
- ReadWriteLockClass.Lock.BeginRead: ends where the thread meets a held lock, as do EndRead and BeginWrite; what the other threads do until it goes on is in the step system.
- Two calls of begin_read by one thread: the progress results are for threads that do not nest, which didCrash does.
- Threads, semaphores and signals of the application; the input queue that locks.
- XML text and the rounding of times in it, file names with leading zeros, removal of misnamed files, file numbers beyond the range of long, 32-bit overflow of the number of boots.
- closedir on a directory that could not be opened or made.
- What delivering each kind of queue entry does to the executive: a delivered entry is recorded as a message.
