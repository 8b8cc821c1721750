/** Enumerations shared by the executive: node states, outcomes, failure types,
    queue statuses, condition indices, and three-valued truth. */
module NodeConstants {

  datatype NodeState = Inactive | Waiting | Executing | IterationEnded | Finished | Failing | Finishing

  datatype Outcome = NoOutcome | Success | Failure | Skipped | Interrupted

  datatype FailureType =
    | NoFailure
    | PreConditionFailed
    | PostConditionFailed
    | InvariantConditionFailed
    | ParentFailed
    | Exited
    | ParentExited

  datatype QueueStatus =
    | QueueNone
    | QueueCheck
    | QueuePendingTry
    | QueuePendingTryCheck
    | QueuePending
    | QueuePendingCheck
    | QueueTransition
    | QueueTransitionCheck
    | QueueDelete

  datatype Kind = Empty | List | Assignment | Command

  datatype CondIdx =
    | AncestorExit
    | AncestorInvariant
    | AncestorEnd
    | Skip
    | Start
    | Pre
    | Exit
    | Invariant
    | End
    | Post
    | Repeat
    | ActionComplete
    | AbortComplete

  /** The indices a plan author may supply. */
  const UserIdx: set<CondIdx> := {Skip, Start, Pre, Exit, Invariant, End, Post, Repeat}

  /** A Boolean expression's value: known false, known true, or not known. */
  datatype Tri = Unknown | False | True

  function KleeneOr(a: Tri, b: Tri): Tri {
    if a == True || b == True then True
    else if a == False && b == False then False
    else Unknown
  }

  function KleeneAnd(a: Tri, b: Tri): Tri {
    if a == False || b == False then False
    else if a == True && b == True then True
    else Unknown
  }
}
