/** The node state machine as functions of values: where a node would go, and what
    committing that move does to its condition activations.  One definition serves
    all four node types; the overrides of the separate node classes are proved
    against it in module NodeClass. */
module NodeLogic {
  import opened NodeConstants
  import opened Options
  import opened Conditions

  /** Result of getDestState: no move, a move with the outcome and failure type to
      record (absent ones leave the old in place), or an error report. */
  datatype Decision =
    | Stay
    | Go(to: NodeState, outcome: Outcome, failure: FailureType)
    | Illegal

  /** Why a running node must stop early, in the order the conditions are tested. */
  datatype Interrupt = NotInterrupted | Interrupt(outcome: Outcome, failure: FailureType)

  function Interruption(c: Conds): Interrupt {
    if KnownTrue(c, AncestorExit) then Interrupt(Interrupted, ParentExited)
    else if KnownTrue(c, Exit) then Interrupt(Interrupted, Exited)
    else if KnownFalse(c, AncestorInvariant) then Interrupt(Outcome.Failure, ParentFailed)
    else if KnownFalse(c, Invariant) then Interrupt(Outcome.Failure, InvariantConditionFailed)
    else NotInterrupted
  }

  predicate FromParent(f: FailureType) {
    f == ParentExited || f == ParentFailed
  }

  /** Where an interrupted node of this type goes. */
  function InterruptedTo(kind: Kind, f: FailureType): NodeState {
    if kind != Empty then Failing
    else if FromParent(f) then Finished
    else IterationEnded
  }

  function EndOfIteration(c: Conds): Decision {
    if Unmet(c, Post) then Go(IterationEnded, Outcome.Failure, PostConditionFailed)
    else Go(IterationEnded, Success, NoFailure)
  }

  function DestFromInactive(parent: Option<NodeState>, c: Conds): Decision {
    match parent
    case None => Go(Waiting, NoOutcome, NoFailure)
    case Some(Finished) => Go(Finished, Skipped, NoFailure)
    case Some(Executing) =>
      if KnownTrue(c, AncestorExit) || KnownFalse(c, AncestorInvariant) || KnownTrue(c, AncestorEnd)
      then Go(Finished, Skipped, NoFailure)
      else Go(Waiting, NoOutcome, NoFailure)
    case _ => Stay
  }

  function DestFromWaiting(c: Conds): Decision {
    if KnownTrue(c, AncestorExit) || KnownTrue(c, Exit) || KnownFalse(c, AncestorInvariant)
       || KnownTrue(c, AncestorEnd) || KnownTrue(c, Skip)
    then Go(Finished, Skipped, NoFailure)
    else if Unmet(c, Start) then Stay
    else if Unmet(c, Pre) then Go(IterationEnded, Outcome.Failure, PreConditionFailed)
    else Go(Executing, NoOutcome, NoFailure)
  }

  function DestFromExecuting(kind: Kind, c: Conds): Decision {
    if kind == Assignment && !KnownTrue(c, ActionComplete) then Stay
    else match Interruption(c)
      case Interrupt(o, f) => Go(InterruptedTo(kind, f), o, f)
      case NotInterrupted =>
        if Unmet(c, End) then Stay
        else if kind == List || kind == Command then Go(Finishing, NoOutcome, NoFailure)
        else EndOfIteration(c)
  }

  function DestFromFinishing(kind: Kind, c: Conds): Decision {
    if kind == Empty || kind == Assignment then Illegal
    else match Interruption(c)
      case Interrupt(o, f) => Go(Failing, o, f)
      case NotInterrupted => if KnownTrue(c, ActionComplete) then EndOfIteration(c) else Stay
  }

  function DestFromFailing(kind: Kind, failure: FailureType, c: Conds): Decision {
    if kind == Empty then Illegal
    else if !KnownTrue(c, if kind == List then ActionComplete else AbortComplete) then Stay
    else Go(if FromParent(failure) then Finished else IterationEnded, NoOutcome, NoFailure)
  }

  function DestFromIterationEnded(c: Conds): Decision {
    if KnownTrue(c, AncestorExit) then Go(Finished, Interrupted, ParentExited)
    else if KnownFalse(c, AncestorInvariant) then Go(Finished, Outcome.Failure, ParentFailed)
    else if KnownTrue(c, AncestorEnd) then Go(Finished, NoOutcome, NoFailure)
    else if c(Repeat) == Some(Unknown) then Stay
    else if KnownTrue(c, Repeat) then Go(Waiting, NoOutcome, NoFailure)
    else Go(Finished, NoOutcome, NoFailure)
  }

  function DestFromFinished(parent: Option<NodeState>): Decision {
    if parent == Some(Waiting) then Go(Inactive, NoOutcome, NoFailure) else Stay
  }

  function Dest(kind: Kind, state: NodeState, failure: FailureType,
                parent: Option<NodeState>, c: Conds): Decision {
    match state
    case Inactive => DestFromInactive(parent, c)
    case Waiting => DestFromWaiting(c)
    case Executing => DestFromExecuting(kind, c)
    case Finishing => DestFromFinishing(kind, c)
    case Failing => DestFromFailing(kind, failure, c)
    case IterationEnded => DestFromIterationEnded(c)
    case Finished => DestFromFinished(parent)
  }

  // ----- legal edges -----

  /** The states a node of each type can be in. */
  predicate StateOf(kind: Kind, s: NodeState) {
    match kind
    case Empty => s != Finishing && s != Failing
    case Assignment => s != Finishing
    case _ => true
  }

  /** The states in which a node is at work and has its resources. */
  predicate Running(s: NodeState) {
    s == Executing || s == Finishing || s == Failing
  }

  /** The transition diagrams: the edges the handlers accept without an error report. */
  predicate LegalEdge(kind: Kind, from: NodeState, to: NodeState) {
    match from
    case Inactive => to == Waiting || to == Finished
    case Waiting => to == Executing || to == Finished || to == IterationEnded
    case Executing =>
      (match kind
       case Empty => to == Finished || to == IterationEnded
       case Assignment => to == Failing || to == IterationEnded
       case _ => to == Failing || to == Finishing)
    case Finishing => (kind == List || kind == Command) && (to == Failing || to == IterationEnded)
    case Failing => kind != Empty && (to == Finished || to == IterationEnded)
    case IterationEnded => to == Waiting || to == Finished
    case Finished => to == Inactive
  }

  lemma DestIsLegal(kind: Kind, s: NodeState, f: FailureType, parent: Option<NodeState>, c: Conds)
    requires StateOf(kind, s)
    ensures Dest(kind, s, f, parent, c) != Illegal
    ensures Dest(kind, s, f, parent, c).Go? ==>
      LegalEdge(kind, s, Dest(kind, s, f, parent, c).to) && StateOf(kind, Dest(kind, s, f, parent, c).to)
  {
  }

  // ----- outcome table -----

  predicate HasOutcome(s: NodeState) {
    s == IterationEnded || s == Finished || s == Failing
  }

  /** Which outcome and failure type may stand in which state. */
  predicate OutcomeTable(s: NodeState, o: Outcome, f: FailureType) {
    && (o == NoOutcome <==> !HasOutcome(s))
    && match o
       case NoOutcome => f == NoFailure
       case Success => f == NoFailure && s != Failing
       case Skipped => f == NoFailure && s == Finished
       case Interrupted => f == Exited || (f == ParentExited && s != IterationEnded)
       case Failure =>
         || (f == PreConditionFailed && s != Failing)
         || (f == PostConditionFailed && s != Failing)
         || f == InvariantConditionFailed
         || (f == ParentFailed && s != IterationEnded)
  }

  /** Outcome and failure type after committing a move: a reset clears both, then the
      cached outcome is stored if there is one, and the cached failure type with it. */
  predicate Resets(from: NodeState, to: NodeState) {
    from == Finished || (from == IterationEnded && to == Waiting)
  }

  function NewOutcome(from: NodeState, to: NodeState, o: Outcome, next: Outcome): Outcome {
    if next != NoOutcome then next else if Resets(from, to) then NoOutcome else o
  }

  function NewFailure(from: NodeState, to: NodeState, f: FailureType, nextO: Outcome, nextF: FailureType): FailureType {
    if nextO != NoOutcome && nextF != NoFailure then nextF
    else if Resets(from, to) then NoFailure else f
  }

  /** Every move a node can decide on keeps the outcome table. */
  lemma OutcomeTableKept(kind: Kind, s: NodeState, o: Outcome, f: FailureType,
                         parent: Option<NodeState>, c: Conds)
    requires StateOf(kind, s) && OutcomeTable(s, o, f)
    requires Dest(kind, s, f, parent, c).Go?
    ensures var d := Dest(kind, s, f, parent, c);
      OutcomeTable(d.to, NewOutcome(s, d.to, o, d.outcome), NewFailure(s, d.to, f, d.outcome, d.failure))
  {
  }

  // ----- condition activations -----

  predicate IsAncestorSlot(k: CondIdx) {
    k == AncestorExit || k == AncestorInvariant || k == AncestorEnd
  }

  predicate IsWaitingSlot(k: CondIdx) {
    k == Skip || k == Start || k == Pre
  }

  predicate IsRunSlot(k: CondIdx) {
    k == Exit || k == Invariant || k == End || k == Post
  }

  /** The change each exit handler makes to the activation count of a slot (for the
      three ancestor slots: the ones a list activates for its children). */
  function LeavingDelta(kind: Kind, from: NodeState, to: NodeState, k: CondIdx): int {
    match from
    case Waiting => if IsWaitingSlot(k) || (k == Exit && to != Executing) then -1 else 0
    case Executing =>
      (match kind
       case Empty => if IsRunSlot(k) then -1 else 0
       case Assignment => if IsRunSlot(k) || k == ActionComplete then -1 else 0
       case List =>
         if k == End || ((k == Exit || k == Invariant) && to == Failing) then -1
         else if k == ActionComplete then 1
         else 0
       case Command => if k == End || ((k == Exit || k == Invariant) && to == Failing) then -1 else 0)
    case Finishing =>
      if k == Exit || k == Invariant || k == Post then -1
      else if kind == Command && k == ActionComplete then -1
      else if kind == List && to == IterationEnded && (k == ActionComplete || IsAncestorSlot(k)) then -1
      else 0
    case Failing =>
      if kind == List then
        if k == ActionComplete || IsAncestorSlot(k) then -1 else 0
      else if k == AbortComplete then -1 else 0
    case IterationEnded => if k == Repeat then -1 else 0
    case _ => 0
  }

  /** The change each entry handler makes. */
  function EnteringDelta(kind: Kind, to: NodeState, k: CondIdx): int {
    match to
    case Waiting => if k == Exit || IsWaitingSlot(k) then 1 else 0
    case Executing =>
      (match kind
       case Empty => if k == Invariant || k == End || k == Post then 1 else 0
       case Assignment => if k == Invariant || k == End || k == Post || k == ActionComplete then 1 else 0
       case List => if k == Invariant || k == End || IsAncestorSlot(k) then 1 else 0
       case Command => if k == Invariant || k == Exit || k == End then 1 else 0)
    case Finishing => if k == Post || (kind == Command && k == ActionComplete) then 1 else 0
    case Failing => if kind != List && k == AbortComplete then 1 else 0
    case IterationEnded => if k == Repeat then 1 else 0
    case _ => 0
  }

  function Delta(kind: Kind, from: NodeState, to: NodeState, k: CondIdx): int {
    LeavingDelta(kind, from, to, k) + EnteringDelta(kind, to, k)
  }

  /** The conditions that are active while a node of this type is in a state, as the
      state diagrams list them. */
  predicate ActiveIn(kind: Kind, s: NodeState, k: CondIdx) {
    match s
    case Inactive => false
    case Finished => false
    case Waiting => k == Exit || IsWaitingSlot(k)
    case IterationEnded => k == Repeat
    case Executing =>
      (match kind
       case Empty => IsRunSlot(k)
       case Assignment => IsRunSlot(k) || k == ActionComplete
       case List => k == Exit || k == Invariant || k == End || IsAncestorSlot(k)
       case Command => k == Exit || k == Invariant || k == End)
    case Finishing =>
      || k == Exit || k == Invariant || k == Post || k == ActionComplete
      || (kind == List && IsAncestorSlot(k))
    case Failing =>
      if kind == List then k == ActionComplete || IsAncestorSlot(k) else k == AbortComplete
  }

  function Count(kind: Kind, s: NodeState, k: CondIdx): int {
    if ActiveIn(kind, s, k) then 1 else 0
  }

  /** Along every legal edge the handlers move each count from the old state's diagram
      to the new one's, except that a Command activates Exit once too often on entry
      to EXECUTING. */
  lemma DeltaFollowsDiagram(kind: Kind, from: NodeState, to: NodeState, k: CondIdx)
    requires StateOf(kind, from) && LegalEdge(kind, from, to)
    ensures Delta(kind, from, to, k) == Count(kind, to, k) - Count(kind, from, k)
      + (if kind == Command && to == Executing && k == Exit then 1 else 0)
  {
  }

  /** The local conditions getDestState may evaluate in a state. */
  predicate ReadIn(kind: Kind, s: NodeState, k: CondIdx) {
    match s
    case Inactive => false
    case Finished => false
    case Waiting => k == Exit || IsWaitingSlot(k)
    case IterationEnded => k == Repeat
    case Executing =>
      (match kind
       case Empty => IsRunSlot(k)
       case Assignment => IsRunSlot(k) || k == ActionComplete
       case _ => k == Exit || k == Invariant || k == End)
    case Finishing => k == Exit || k == Invariant || k == Post || k == ActionComplete
    case Failing => if kind == List then k == ActionComplete else k == AbortComplete
  }

  ghost predicate AgreeOn(c: Conds, d: Conds, k: CondIdx) {
    c(k) == d(k)
  }

  /** ReadIn is an upper bound: the values of other local conditions never matter. */
  lemma DestReadsOnly(kind: Kind, s: NodeState, f: FailureType, parent: Option<NodeState>, c: Conds, d: Conds)
    requires StateOf(kind, s)
    requires forall k :: ReadIn(kind, s, k) || IsAncestorSlot(k) ==> AgreeOn(c, d, k)
    ensures Dest(kind, s, f, parent, c) == Dest(kind, s, f, parent, d)
  {
    assert forall k :: ReadIn(kind, s, k) || IsAncestorSlot(k) ==>
      KnownTrue(c, k) == KnownTrue(d, k) && KnownFalse(c, k) == KnownFalse(d, k) && Unmet(c, k) == Unmet(d, k);
  }

  /** And each of them matters: there are values of the others with which it makes a difference. */
  lemma {:induction false} EveryReadMatters(kind: Kind, s: NodeState, k: CondIdx) returns (c: Conds, v: Option<Tri>)
    requires StateOf(kind, s) && ReadIn(kind, s, k)
    ensures Dest(kind, s, NoFailure, None, c) != Dest(kind, s, NoFailure, None, q => if q == k then v else c(q))
  {
    c := q => if q == ActionComplete || q == AbortComplete then Some(True) else None;
    v := if k == Exit || k == Skip || k == Repeat then Some(True) else Some(False);
  }

  /** When getDestState may evaluate the ancestor conditions, given the parent's state. */
  predicate ReadsAncestors(s: NodeState, parent: Option<NodeState>) {
    || (s == Inactive && parent == Some(Executing))
    || s == Waiting || s == Executing || s == Finishing || s == IterationEnded
  }

  /** Otherwise their values do not matter. */
  lemma AncestorsUnread(kind: Kind, s: NodeState, f: FailureType, parent: Option<NodeState>, c: Conds, d: Conds)
    requires StateOf(kind, s) && !ReadsAncestors(s, parent)
    requires forall k :: !IsAncestorSlot(k) ==> AgreeOn(c, d, k)
    ensures Dest(kind, s, f, parent, c) == Dest(kind, s, f, parent, d)
  {
    assert AgreeOn(c, d, ActionComplete) && AgreeOn(c, d, AbortComplete);
  }

  lemma ReadIsActive(kind: Kind, s: NodeState, k: CondIdx)
    requires StateOf(kind, s) && ReadIn(kind, s, k)
    ensures ActiveIn(kind, s, k)
  {
  }

  /** What is active is read, by the node itself or by a list's children. */
  lemma ActiveIsRead(kind: Kind, s: NodeState, k: CondIdx)
    requires StateOf(kind, s) && ActiveIn(kind, s, k)
    ensures ReadIn(kind, s, k) || (kind == List && Running(s) && IsAncestorSlot(k))
  {
  }
}
