/** Why a plan comes to rest: resets are paid for by the parent's entries to WAITING,
    so the number of moves is bounded by the plan's shape and the repeats that fire. */
module Termination {
  import opened NodeConstants
  import opened Options
  import opened Conditions
  import opened NodeLogic
  import opened PlanMachine
  import opened PlanInvariant

  function Rank(s: NodeState): nat {
    match s
    case Inactive => 0
    case Waiting => 1
    case Executing => 2
    case Finishing => 3
    case Failing => 4
    case IterationEnded => 5
    case Finished => 6
  }

  /** Every legal edge climbs, but for the repeat and the reset. */
  lemma OnlyRepeatAndResetDescend(kind: Kind, from: NodeState, to: NodeState)
    requires LegalEdge(kind, from, to)
    ensures Rank(to) <= Rank(from) <==>
      (from == IterationEnded && to == Waiting) || (from == Finished && to == Inactive)
  {
  }

  ghost predicate CountsOk(cfg: PlanConf, s: Plan, i: nat)
    requires Sized(cfg, s) && i < |cfg|
  {
    var h, st := s.hist[i], s.nodes[i].state;
    && h.moves <= Rank(st) + 5 * h.repeats + 7 * h.resets
    && h.waits + (if st == Inactive then 1 else 0) <= 1 + h.resets + h.repeats
    && (cfg[i].parent.None? ==> h.resets == 0)
  }

  /** Resets of a node against its parent's entries to WAITING; a reset that is possible
      now, or is already queued, is covered too. */
  ghost predicate ResetsPaid(cfg: PlanConf, s: Plan, i: nat)
    requires Sized(cfg, s) && i < |cfg|
  {
    cfg[i].parent.Some? && cfg[i].parent.value < |cfg| ==>
      var p := cfg[i].parent.value;
      && s.hist[i].resets <= s.hist[p].waits
      && (s.nodes[i].state != Inactive && s.nodes[p].state == Waiting ==> s.hist[i].resets < s.hist[p].waits)
      && (s.nodes[i].state == Finished && s.nodes[i].queue == StateChange ==> s.hist[i].resets < s.hist[p].waits)
  }

  ghost predicate TermInv(cfg: PlanConf, s: Plan)
    requires Sized(cfg, s)
  {
    forall i: nat {:trigger s.hist[i]} | i < |cfg| :: CountsOk(cfg, s, i) && ResetsPaid(cfg, s, i)
  }

  lemma CommitKeepsCounts(cfg: PlanConf, s: Plan, i: nat, t: Plan)
    requires Inv(cfg, s) && TermInv(cfg, s) && CommitEffect(cfg, s, i, t) && s.nodes[i].queue == StateChange
    ensures CountsOk(cfg, t, i)
  {
    assert NodeOk(cfg, s, i) && CountsOk(cfg, s, i);
  }

  lemma CommitKeepsPaid(cfg: PlanConf, s: Plan, i: nat, t: Plan, j: nat)
    requires Inv(cfg, s) && TermInv(cfg, s) && CommitEffect(cfg, s, i, t) && j < |cfg|
    requires s.phase == Committing && s.nodes[i].queue == StateChange
    ensures ResetsPaid(cfg, t, j)
  {
    assert NodeOk(cfg, s, i) && NodeOk(cfg, s, j) && ResetsPaid(cfg, s, j) && NodeWellFormed(cfg, j);
    if j != i {
      assert Touched(s.nodes[j], t.nodes[j]);
      TouchedQueue(cfg[j].parent.None?, s.nodes[j], t.nodes[j]);
    }
    if cfg[j].parent.Some? {
      var p := cfg[j].parent.value;
      assert NodeOk(cfg, s, p);
      if p != i { assert Touched(s.nodes[p], t.nodes[p]); }
    }
  }

  lemma CommitKeepsTerm(cfg: PlanConf, s: Plan, i: nat, t: Plan)
    requires Inv(cfg, s) && TermInv(cfg, s) && CommitEffect(cfg, s, i, t)
    requires s.phase == Committing && s.nodes[i].queue == StateChange
    ensures TermInv(cfg, t)
  {
    forall j: nat | j < |cfg| ensures CountsOk(cfg, t, j) && ResetsPaid(cfg, t, j) {
      assert CountsOk(cfg, s, j);
      CommitKeepsPaid(cfg, s, i, t, j);
      if i == j {
        CommitKeepsCounts(cfg, s, i, t);
      } else {
        assert Touched(s.nodes[j], t.nodes[j]);
      }
    }
  }

  /** Steps after which every node is in the state it was in, and only node i may have
      joined the state-change queue. */
  lemma QuietKeepsTerm(cfg: PlanConf, s: Plan, t: Plan, i: nat)
    requires Inv(cfg, s) && TermInv(cfg, s) && Sized(cfg, t)
    requires forall j | 0 <= j < |cfg| :: t.hist[j] == s.hist[j].(leaked := t.hist[j].leaked)
    requires forall j | 0 <= j < |cfg| :: t.nodes[j].state == s.nodes[j].state
    requires forall j | 0 <= j < |cfg| && j != i :: t.nodes[j].queue == StateChange ==> s.nodes[j].queue == StateChange
    requires i < |cfg| ==> ResetsPaid(cfg, t, i)
    ensures TermInv(cfg, t)
  {
    forall j: nat | j < |cfg| ensures CountsOk(cfg, t, j) && ResetsPaid(cfg, t, j) {
      assert CountsOk(cfg, s, j) && ResetsPaid(cfg, s, j) && NodeWellFormed(cfg, j);
    }
  }

  lemma CheckKeepsPaid(cfg: PlanConf, s: Plan, i: nat)
    requires Inv(cfg, s) && TermInv(cfg, s) && Enabled(cfg, s, Check(i))
    ensures ResetsPaid(cfg, CheckNode(cfg, s, i), i)
  {
  }

  lemma QueueStepKeepsTerm(cfg: PlanConf, s: Plan, step: Step)
    requires Inv(cfg, s) && TermInv(cfg, s) && Enabled(cfg, s, step) && (step.Check? || step.Resolve?)
    ensures Sized(cfg, Apply(cfg, s, step)) && TermInv(cfg, Apply(cfg, s, step))
  {
    match step {
      case Check(i) =>
        CheckShape(cfg, s, i);
        CheckKeepsPaid(cfg, s, i);
        QuietKeepsTerm(cfg, s, CheckNode(cfg, s, i), i);
      case Resolve(i) => TurnKeepsTerm(cfg, s, i);
    }
  }

  lemma TurnKeepsTerm(cfg: PlanConf, s: Plan, i: nat)
    requires Inv(cfg, s) && TermInv(cfg, s) && Enabled(cfg, s, Resolve(i))
    ensures Sized(cfg, ResolveNode(cfg, s, i)) && TermInv(cfg, ResolveNode(cfg, s, i))
  {
    ResolveShape(cfg, s, i);
    assert NodeOk(cfg, s, i) && ResetsPaid(cfg, s, i) && NodeWellFormed(cfg, i);
    QuietKeepsTerm(cfg, s, ResolveNode(cfg, s, i), i);
  }

  lemma TouchKeepsTerm(cfg: PlanConf, s: Plan, t: Plan)
    requires Inv(cfg, s) && TermInv(cfg, s) && Sized(cfg, t) && t.hist == s.hist
    requires forall j | 0 <= j < |cfg| :: Touched(s.nodes[j], t.nodes[j])
    ensures TermInv(cfg, t)
  {
    forall j | 0 <= j < |cfg|
      ensures t.nodes[j].state == s.nodes[j].state
      ensures t.nodes[j].queue == StateChange ==> s.nodes[j].queue == StateChange
    {
      assert NodeOk(cfg, s, j) && Touched(s.nodes[j], t.nodes[j]);
      TouchedQueue(cfg[j].parent.None?, s.nodes[j], t.nodes[j]);
    }
    QuietKeepsTerm(cfg, s, t, |cfg|);
  }

  lemma StepKeepsTerm(cfg: PlanConf, s: Plan, step: Step)
    requires Inv(cfg, s) && TermInv(cfg, s) && Enabled(cfg, s, step)
    ensures Sized(cfg, Apply(cfg, s, step)) && TermInv(cfg, Apply(cfg, s, step))
  {
    if step.Commit? {
      CommitShape(cfg, s, step.node, step.rhs);
      CommitKeepsTerm(cfg, s, step.node, Apply(cfg, s, step));
    } else if step.Check? || step.Resolve? {
      QueueStepKeepsTerm(cfg, s, step);
    } else {
      TouchShape(cfg, s, step);
      TouchKeepsTerm(cfg, s, Apply(cfg, s, step));
    }
  }

  // ----- the bound -----

  /** How often a node can be reset: once per ancestor, and once per repeat of one. */
  function ResetBudget(cfg: PlanConf, repeats: seq<nat>, i: nat): nat
    requires i < |cfg| == |repeats|
    decreases i
  {
    if cfg[i].parent.Some? && cfg[i].parent.value < i
    then ResetBudget(cfg, repeats, cfg[i].parent.value) + 1 + repeats[cfg[i].parent.value]
    else 0
  }

  function MoveBudget(cfg: PlanConf, repeats: seq<nat>, i: nat): nat
    requires i < |cfg| == |repeats|
  {
    6 + 5 * repeats[i] + 7 * ResetBudget(cfg, repeats, i)
  }

  ghost predicate RepeatsWithin(s: Plan, repeats: seq<nat>) {
    |s.hist| == |repeats| && forall i | 0 <= i < |repeats| :: s.hist[i].repeats <= repeats[i]
  }

  lemma {:induction false} ResetsWithinBudget(cfg: PlanConf, s: Plan, repeats: seq<nat>, i: nat)
    requires Inv(cfg, s) && TermInv(cfg, s) && i < |cfg| && RepeatsWithin(s, repeats)
    ensures s.hist[i].resets <= ResetBudget(cfg, repeats, i)
    decreases i
  {
    assert NodeWellFormed(cfg, i) && CountsOk(cfg, s, i) && ResetsPaid(cfg, s, i);
    if cfg[i].parent.Some? {
      var p := cfg[i].parent.value;
      ResetsWithinBudget(cfg, s, repeats, p);
      assert CountsOk(cfg, s, p);
    }
  }

  /** A node's moves are bounded by its depth and the repeats of it and its ancestors. */
  lemma MovesWithinBudget(cfg: PlanConf, s: Plan, repeats: seq<nat>, i: nat)
    requires Inv(cfg, s) && TermInv(cfg, s) && i < |cfg| && RepeatsWithin(s, repeats)
    ensures s.hist[i].moves <= MoveBudget(cfg, repeats, i)
  {
    ResetsWithinBudget(cfg, s, repeats, i);
    assert CountsOk(cfg, s, i);
  }

  // ----- counting the moves of a whole run -----

  function TotalMoves(hist: seq<Hist>): nat {
    if hist == [] then 0 else TotalMoves(hist[..|hist| - 1]) + hist[|hist| - 1].moves
  }

  function CommitsIn(steps: seq<Step>): nat {
    if steps == [] then 0 else (if steps[0].Commit? then 1 else 0) + CommitsIn(steps[1..])
  }

  function TotalBudget(cfg: PlanConf, repeats: seq<nat>, n: nat): nat
    requires n <= |cfg| == |repeats|
  {
    if n == 0 then 0 else TotalBudget(cfg, repeats, n - 1) + MoveBudget(cfg, repeats, n - 1)
  }

  lemma {:induction false} TotalAfterOne(hist: seq<Hist>, i: nat, h: Hist)
    requires i < |hist|
    ensures TotalMoves(hist[i := h]) == TotalMoves(hist) + h.moves - hist[i].moves
    decreases |hist|
  {
    var last := |hist| - 1;
    if i == last {
      assert hist[i := h][..last] == hist[..last];
    } else {
      TotalAfterOne(hist[..last], i, h);
      assert hist[i := h][..last] == hist[..last][i := h];
    }
  }

  lemma {:induction false} StepCountsMove(cfg: PlanConf, s: Plan, step: Step)
    requires Inv(cfg, s) && Enabled(cfg, s, step)
    ensures TotalMoves(Apply(cfg, s, step).hist) == TotalMoves(s.hist) + if step.Commit? then 1 else 0
  {
    var u := Apply(cfg, s, step);
    match step {
      case Check(i) => CheckShape(cfg, s, i);
      case Resolve(i) =>
        ResolveShape(cfg, s, i);
        assert u.hist == s.hist[i := u.hist[i]];
        TotalAfterOne(s.hist, i, u.hist[i]);
      case Commit(i, rhs) =>
        CommitShape(cfg, s, i, rhs);
        TotalAfterOne(s.hist, i, u.hist[i]);
      case _ => TouchShape(cfg, s, step);
    }
  }

  lemma {:induction false} RunCountsMoves(cfg: PlanConf, s: Plan, steps: seq<Step>, t: Plan)
    requires Inv(cfg, s) && IsRun(cfg, s, steps, t)
    ensures TotalMoves(t.hist) == TotalMoves(s.hist) + CommitsIn(steps)
    decreases |steps|
  {
    if steps != [] {
      StepKeepsInv(cfg, s, steps[0]);
      StepCountsMove(cfg, s, steps[0]);
      RunCountsMoves(cfg, Apply(cfg, s, steps[0]), steps[1..], t);
    }
  }

  /** How often along these steps node i goes from the end of an iteration back to WAITING. */
  ghost function Repeats(cfg: PlanConf, s: Plan, steps: seq<Step>, i: nat): nat
    decreases |steps|
  {
    if steps == [] || !Sized(cfg, s) || !Enabled(cfg, s, steps[0]) || i >= |cfg| then 0
    else
      var t := Apply(cfg, s, steps[0]);
      (if i < |t.nodes| && s.nodes[i].state == IterationEnded && t.nodes[i].state == Waiting then 1 else 0)
      + Repeats(cfg, t, steps[1..], i)
  }

  lemma {:induction false} StepCountsRepeat(cfg: PlanConf, s: Plan, step: Step, i: nat)
    requires Inv(cfg, s) && Enabled(cfg, s, step) && i < |cfg|
    ensures var t := Apply(cfg, s, step);
      && Sized(cfg, t)
      && t.hist[i].repeats == s.hist[i].repeats
           + if s.nodes[i].state == IterationEnded && t.nodes[i].state == Waiting then 1 else 0
  {
    match step {
      case Check(j) => CheckShape(cfg, s, j);
      case Resolve(j) => ResolveShape(cfg, s, j);
      case Commit(j, rhs) =>
        CommitShape(cfg, s, j, rhs);
        assert i != j ==> Touched(s.nodes[i], CommitNode(cfg, s, j, rhs).nodes[i]);
      case _ =>
        TouchShape(cfg, s, step);
        assert Touched(s.nodes[i], Apply(cfg, s, step).nodes[i]);
    }
  }

  lemma {:induction false} RunCountsRepeats(cfg: PlanConf, s: Plan, steps: seq<Step>, t: Plan, i: nat)
    requires Inv(cfg, s) && IsRun(cfg, s, steps, t) && i < |cfg|
    ensures |t.hist| == |cfg| && t.hist[i].repeats == s.hist[i].repeats + Repeats(cfg, s, steps, i)
    decreases |steps|
  {
    if steps != [] {
      StepKeepsInv(cfg, s, steps[0]);
      StepCountsRepeat(cfg, s, steps[0], i);
      RunCountsRepeats(cfg, Apply(cfg, s, steps[0]), steps[1..], t, i);
    }
  }

  lemma {:induction false} TotalWithinBudget(cfg: PlanConf, s: Plan, repeats: seq<nat>, n: nat)
    requires Inv(cfg, s) && TermInv(cfg, s) && n <= |cfg| && RepeatsWithin(s, repeats)
    ensures TotalMoves(s.hist[..n]) <= TotalBudget(cfg, repeats, n)
    decreases n
  {
    if n != 0 {
      TotalWithinBudget(cfg, s, repeats, n - 1);
      MovesWithinBudget(cfg, s, repeats, n - 1);
      assert s.hist[..n][..n - 1] == s.hist[..n - 1];
    }
  }
}
