/** What a node decides, told in the values of the conditions that the plan's authors wrote: from
    the plan and the world through the wrapped and inherited condition slots to the decision. */
module Decisions {
  import opened NodeConstants
  import opened Options
  import opened Conditions
  import opened NodeLogic
  import opened PlanMachine
  import opened PlanInvariant

  /** The node has such a condition, and it has this value. */
  predicate Says(cfg: PlanConf, w: World, i: nat, u: CondIdx, v: Tri)
    requires i < |cfg|
  {
    u in cfg[i].user && UserValue(w, i, u) == v
  }

  /** The node has no such condition, or it is known to be true. */
  predicate Fulfilled(cfg: PlanConf, w: World, i: nat, u: CondIdx)
    requires i < |cfg|
  {
    u in cfg[i].user ==> UserValue(w, i, u) == True
  }

  // ----- what the node reads -----

  /** A condition that nothing is joined to. */
  lemma {:induction false} OwnCondition(cfg: PlanConf, w: World, i: nat, k: CondIdx)
    requires WellFormed(cfg) && i < |cfg|
    requires k in {Skip, Start, Pre, Exit, Invariant, Post, Repeat} || (k == End && cfg[i].kind in {Empty, Assignment})
    ensures Env(cfg, w, i)(k) == if k in cfg[i].user then Some(UserValue(w, i, k)) else None
  {
    OwnSlot(cfg, i, k);
    assert Env(cfg, w, i)(k) == EvalSlot(cfg, w, if k in cfg[i].user then Some(User(i, k)) else None);
  }

  lemma {:induction false} OwnSlot(cfg: PlanConf, i: nat, k: CondIdx)
    requires WellFormed(cfg) && i < |cfg|
    requires k in {Skip, Start, Pre, Exit, Invariant, Post, Repeat} || (k == End && cfg[i].kind in {Empty, Assignment})
    ensures Readable(cfg, i)(k) == if k in cfg[i].user then Some(User(i, k)) else None
  {
    match cfg[i].kind {
      case List => ListLocalSlot(cfg, i, k);
      case Command => CommandSlot(cfg, i, k);
      case _ => UnwrappedSlot(cfg, i, k);
    }
  }

  lemma {:induction false} CommandSlot(cfg: PlanConf, i: nat, k: CondIdx)
    requires i < |cfg| && cfg[i].kind == Command && k != End && !IsAncestorSlot(k)
    ensures Readable(cfg, i)(k) == OwnSlots(cfg[i], i)(k)
  {
    assert Readable(cfg, i)(k) == SlotsOf(cfg, i)(k);
  }

  /** The three that are collected from the ancestors. */
  lemma {:induction false} AncestorCondition(cfg: PlanConf, w: World, i: nat)
    requires WellFormed(cfg) && i < |cfg|
    ensures Env(cfg, w, i)(AncestorExit) == Some(True) <==> SomeAncestorIs(cfg, w, i, Exit, True)
    ensures Env(cfg, w, i)(AncestorInvariant) == Some(False) <==> SomeAncestorIs(cfg, w, i, Invariant, False)
    ensures Env(cfg, w, i)(AncestorEnd) == Some(True) <==> SomeAncestorIs(cfg, w, i, End, True)
  {
    AncestorConditionIsFold(cfg, w, i, AncestorExit);
    AncestorConditionIsFold(cfg, w, i, AncestorInvariant);
    AncestorConditionIsFold(cfg, w, i, AncestorEnd);
  }

  /** Is the End condition met, or absent? */
  ghost predicate EndMet(cfg: PlanConf, w: World, i: nat)
    requires i < |cfg|
  {
    match cfg[i].kind
    case List =>
      if End in cfg[i].user then UserValue(w, i, End) == True
      else forall c: nat | IsChild(cfg, c, i) && c < |w.states| :: w.states[c] == Finished
    case Command =>
      || Fulfilled(cfg, w, i, End)
      || (i in w.handles &&
            (w.handles[i] == Denied || w.handles[i] == CommandHandle.Failed || w.handles[i] == InterfaceError))
    case _ => Fulfilled(cfg, w, i, End)
  }

  lemma {:induction false} EndReads(cfg: PlanConf, w: World, i: nat)
    requires WellFormed(cfg) && i < |cfg|
    ensures Env(cfg, w, i)(End) == None || Env(cfg, w, i)(End) == Some(True) <==> EndMet(cfg, w, i)
  {
    match cfg[i].kind {
      case List => ListEnd(cfg, w, i);
      case Command => CommandEnd(cfg, w, i);
      case _ => OwnCondition(cfg, w, i, End);
    }
  }

  lemma {:induction false} ListEnd(cfg: PlanConf, w: World, i: nat)
    requires WellFormed(cfg) && i < |cfg| && cfg[i].kind == List
    ensures Env(cfg, w, i)(End)
         == Some(if End in cfg[i].user then UserValue(w, i, End) else Truth(ChildrenIn(cfg, w.states, i, {Finished})))
  {
    ListLocalSlot(cfg, i, End);
    assert Env(cfg, w, i)(End) == EvalSlot(cfg, w, Some(if End in cfg[i].user then User(i, End) else AllFinished(i)));
  }

  /** What the node works on has come to its end: the children of a list are out of the way, the
      flag of an Assignment is up, the condition of a Command is true. */
  ghost predicate Done(cfg: PlanConf, w: World, i: nat, flag: CondIdx, flags: set<nat>)
    requires i < |cfg|
  {
    match cfg[i].kind
    case List =>
      forall c: nat | IsChild(cfg, c, i) && c < |w.states| :: w.states[c] == Waiting || w.states[c] == Finished
    case Assignment => i in flags
    case Command => UserValue(w, i, flag) == True
    case Empty => false
  }

  lemma {:induction false} DoneReads(cfg: PlanConf, w: World, i: nat)
    requires WellFormed(cfg) && i < |cfg|
    ensures cfg[i].kind != Empty ==>
      (Env(cfg, w, i)(ActionComplete) == Some(True) <==> Done(cfg, w, i, ActionComplete, w.acks))
    ensures cfg[i].kind == Assignment || cfg[i].kind == Command ==>
      (Env(cfg, w, i)(AbortComplete) == Some(True) <==> Done(cfg, w, i, AbortComplete, w.aborts))
  {
    match cfg[i].kind {
      case List => EnvOfList(cfg, w, i);
      case Empty =>
      case _ => FlagReads(cfg, w, i, ActionComplete); FlagReads(cfg, w, i, AbortComplete);
    }
  }

  lemma {:induction false} FlagReads(cfg: PlanConf, w: World, i: nat, k: CondIdx)
    requires i < |cfg| && (cfg[i].kind == Assignment || cfg[i].kind == Command)
    requires k == ActionComplete || k == AbortComplete
    ensures Env(cfg, w, i)(k) == Some(
      if cfg[i].kind == Command then UserValue(w, i, k)
      else Truth(i in if k == ActionComplete then w.acks else w.aborts))
  {
    var slot := if cfg[i].kind == Command then User(i, k)
                else if k == ActionComplete then Acknowledged(i) else Aborted(i);
    assert Readable(cfg, i)(k) == SlotsOf(cfg, i)(k) == OwnSlots(cfg[i], i)(k) == Some(slot);
    assert Env(cfg, w, i)(k) == EvalSlot(cfg, w, Some(slot));
  }

  // ----- what it decides -----

  /** The decision's dependence on the plan is by way of what is read. */
  ghost predicate At(cfg: PlanConf, s: Plan, i: nat) {
    WellFormed(cfg) && Sized(cfg, s) && i < |cfg| && StateOf(cfg[i].kind, s.nodes[i].state)
  }

  /** A waiting node is skipped, waits on, fails its pre-condition, or executes. */
  lemma {:induction false} WaitingDecides(cfg: PlanConf, s: Plan, i: nat)
    requires At(cfg, s, i) && s.nodes[i].state == Waiting
    ensures var w, d := WorldOf(s), Decide(cfg, s, i);
      var skipped :=
        || SomeAncestorIs(cfg, w, i, Exit, True) || Says(cfg, w, i, Exit, True)
        || SomeAncestorIs(cfg, w, i, Invariant, False) || SomeAncestorIs(cfg, w, i, End, True)
        || Says(cfg, w, i, Skip, True);
      && (d == Go(Finished, Skipped, NoFailure) <==> skipped)
      && (d == Stay <==> !skipped && !Fulfilled(cfg, w, i, Start))
      && (d == Go(IterationEnded, Outcome.Failure, PreConditionFailed) <==>
            !skipped && Fulfilled(cfg, w, i, Start) && !Fulfilled(cfg, w, i, Pre))
      && (d == Go(Executing, NoOutcome, NoFailure) <==>
            !skipped && Fulfilled(cfg, w, i, Start) && Fulfilled(cfg, w, i, Pre))
  {
    var w := WorldOf(s);
    AncestorCondition(cfg, w, i);
    OwnCondition(cfg, w, i, Exit);
    OwnCondition(cfg, w, i, Skip);
    OwnCondition(cfg, w, i, Start);
    OwnCondition(cfg, w, i, Pre);
  }

  /** Nothing tells a node at work to stop. */
  ghost predicate Undisturbed(cfg: PlanConf, w: World, i: nat)
    requires i < |cfg|
  {
    && !SomeAncestorIs(cfg, w, i, Exit, True) && !Says(cfg, w, i, Exit, True)
    && !SomeAncestorIs(cfg, w, i, Invariant, False) && !Says(cfg, w, i, Invariant, False)
  }

  /** A node at work that is to be stopped records why, the first of four causes counting, and
      goes where a node of its type has something to undo, or nothing. */
  lemma {:induction false} InterruptionsDecide(cfg: PlanConf, s: Plan, i: nat)
    requires At(cfg, s, i) && (s.nodes[i].state == Executing || s.nodes[i].state == Finishing)
    requires s.nodes[i].state == Executing && cfg[i].kind == Assignment ==> s.nodes[i].ack
    ensures var w, d := WorldOf(s), Decide(cfg, s, i);
      var exit, failed := SomeAncestorIs(cfg, w, i, Exit, True), SomeAncestorIs(cfg, w, i, Invariant, False);
      var undo := cfg[i].kind != Empty;
      && (d == Go(if undo then Failing else Finished, Interrupted, ParentExited) <==> exit)
      && (d == Go(if undo then Failing else IterationEnded, Interrupted, Exited) <==>
            !exit && Says(cfg, w, i, Exit, True))
      && (d == Go(if undo then Failing else Finished, Outcome.Failure, ParentFailed) <==>
            !exit && !Says(cfg, w, i, Exit, True) && failed)
      && (d == Go(if undo then Failing else IterationEnded, Outcome.Failure, InvariantConditionFailed) <==>
            !exit && !Says(cfg, w, i, Exit, True) && !failed && Says(cfg, w, i, Invariant, False))
  {
    var w := WorldOf(s);
    AncestorCondition(cfg, w, i);
    OwnCondition(cfg, w, i, Exit);
    OwnCondition(cfg, w, i, Invariant);
    DoneReads(cfg, w, i);
  }

  /** A node that is executing and not to be stopped: an Empty node or an acknowledged Assignment
      ends its iteration when its End is met, and a list or a Command finishes up. */
  lemma {:induction false} ExecutingDecides(cfg: PlanConf, s: Plan, i: nat)
    requires At(cfg, s, i) && s.nodes[i].state == Executing && Undisturbed(cfg, WorldOf(s), i)
    ensures var w, d := WorldOf(s), Decide(cfg, s, i);
      var ends, large := EndMet(cfg, w, i) && (cfg[i].kind == Assignment ==> s.nodes[i].ack),
                         cfg[i].kind == List || cfg[i].kind == Command;
      && (d == Stay <==> !ends)
      && (d == Go(Finishing, NoOutcome, NoFailure) <==> ends && large)
      && (d == Go(IterationEnded, Success, NoFailure) <==> ends && !large && Fulfilled(cfg, w, i, Post))
      && (d == Go(IterationEnded, Outcome.Failure, PostConditionFailed) <==>
            ends && !large && !Fulfilled(cfg, w, i, Post))
  {
    var w := WorldOf(s);
    AncestorCondition(cfg, w, i);
    OwnCondition(cfg, w, i, Exit);
    OwnCondition(cfg, w, i, Invariant);
    OwnCondition(cfg, w, i, Post);
    EndReads(cfg, w, i);
    DoneReads(cfg, w, i);
  }

  /** An Assignment that is not acknowledged stays, whatever its conditions are. */
  lemma {:induction false} UnacknowledgedStays(cfg: PlanConf, s: Plan, i: nat)
    requires At(cfg, s, i) && s.nodes[i].state == Executing && cfg[i].kind == Assignment && !s.nodes[i].ack
    ensures Decide(cfg, s, i) == Stay
  {
    DoneReads(cfg, WorldOf(s), i);
  }

  /** A Command that was denied, that failed or that could not be sent finishes up, whatever its
      author's End condition is worth. */
  lemma {:induction false} CutShortCommandFinishes(cfg: PlanConf, s: Plan, i: nat)
    requires At(cfg, s, i) && s.nodes[i].state == Executing && cfg[i].kind == Command
    requires Undisturbed(cfg, WorldOf(s), i)
    requires i in s.handles && (s.handles[i] == Denied || s.handles[i] == CommandHandle.Failed
                                || s.handles[i] == InterfaceError)
    ensures Decide(cfg, s, i) == Go(Finishing, NoOutcome, NoFailure)
  {
    ExecutingDecides(cfg, s, i);
  }

  lemma {:induction false} FinishingDecides(cfg: PlanConf, s: Plan, i: nat)
    requires At(cfg, s, i) && s.nodes[i].state == Finishing && Undisturbed(cfg, WorldOf(s), i)
    ensures var w, d := WorldOf(s), Decide(cfg, s, i);
      var done := Done(cfg, w, i, ActionComplete, w.acks);
      && (d == Stay <==> !done)
      && (d == Go(IterationEnded, Success, NoFailure) <==> done && Fulfilled(cfg, w, i, Post))
      && (d == Go(IterationEnded, Outcome.Failure, PostConditionFailed) <==> done && !Fulfilled(cfg, w, i, Post))
  {
    var w := WorldOf(s);
    AncestorCondition(cfg, w, i);
    OwnCondition(cfg, w, i, Exit);
    OwnCondition(cfg, w, i, Invariant);
    OwnCondition(cfg, w, i, Post);
    DoneReads(cfg, w, i);
  }

  /** Outcome and failure type were recorded when the node began to fail, and say where it goes. */
  lemma {:induction false} FailingDecides(cfg: PlanConf, s: Plan, i: nat)
    requires At(cfg, s, i) && s.nodes[i].state == Failing
    ensures var w, d := WorldOf(s), Decide(cfg, s, i);
      var byParent := s.nodes[i].failure == ParentExited || s.nodes[i].failure == ParentFailed;
      var done := Done(cfg, w, i, AbortComplete, w.aborts);
      && (d == Stay <==> !done)
      && (d == Go(Finished, NoOutcome, NoFailure) <==> done && byParent)
      && (d == Go(IterationEnded, NoOutcome, NoFailure) <==> done && !byParent)
  {
    DoneReads(cfg, WorldOf(s), i);
  }

  /** An ended iteration is the last one if an ancestor exits, fails or ends, and otherwise if
      Repeat is false or absent. */
  lemma {:induction false} IterationEndedDecides(cfg: PlanConf, s: Plan, i: nat)
    requires At(cfg, s, i) && s.nodes[i].state == IterationEnded
    ensures var w, d := WorldOf(s), Decide(cfg, s, i);
      var exit, failed := SomeAncestorIs(cfg, w, i, Exit, True), SomeAncestorIs(cfg, w, i, Invariant, False);
      var ended := SomeAncestorIs(cfg, w, i, End, True);
      && (d == Go(Finished, Interrupted, ParentExited) <==> exit)
      && (d == Go(Finished, Outcome.Failure, ParentFailed) <==> !exit && failed)
      && (d == Go(Finished, NoOutcome, NoFailure) <==>
            !exit && !failed && (ended || Repeat !in cfg[i].user || Says(cfg, w, i, Repeat, False)))
      && (d == Go(Waiting, NoOutcome, NoFailure) <==> !exit && !failed && !ended && Says(cfg, w, i, Repeat, True))
      && (d == Stay <==> !exit && !failed && !ended && Says(cfg, w, i, Repeat, Unknown))
  {
    AncestorCondition(cfg, WorldOf(s), i);
    OwnCondition(cfg, WorldOf(s), i, Repeat);
  }

  /** A root becomes ready; a child does so when its list executes, unless it is to be skipped, as
      it is when the list has finished.  A finished child is reset when its list waits again. */
  lemma {:induction false} RestingDecides(cfg: PlanConf, s: Plan, i: nat)
    requires At(cfg, s, i) && (s.nodes[i].state == Inactive || s.nodes[i].state == Finished)
    ensures cfg[i].parent.Some? ==> cfg[i].parent.value < |cfg|
    ensures var w, d, inactive := WorldOf(s), Decide(cfg, s, i), s.nodes[i].state == Inactive;
      var list := if cfg[i].parent.None? then None else Some(s.nodes[cfg[i].parent.value].state);
      var stopped := SomeAncestorIs(cfg, w, i, Exit, True) || SomeAncestorIs(cfg, w, i, Invariant, False)
                     || SomeAncestorIs(cfg, w, i, End, True);
      && (d == Go(Waiting, NoOutcome, NoFailure) <==>
            inactive && (list == None || (list == Some(Executing) && !stopped)))
      && (d == Go(Finished, Skipped, NoFailure) <==>
            inactive && (list == Some(Finished) || (list == Some(Executing) && stopped)))
      && (d == Go(Inactive, NoOutcome, NoFailure) <==> !inactive && list == Some(Waiting))
      && (d == Stay <==> if inactive then list.Some? && list != Some(Finished) && list != Some(Executing)
                         else list != Some(Waiting))
  {
    assert NodeWellFormed(cfg, i);
    AncestorCondition(cfg, WorldOf(s), i);
  }
}
