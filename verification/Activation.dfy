/** Condition activation accounting over whole runs. */
module Activation {
  import opened NodeConstants
  import opened Options
  import opened Conditions
  import opened NodeLogic
  import opened PlanMachine
  import opened PlanInvariant

  /** The activation count a slot has: what the state diagram says for a slot that is not
      null, plus, for a Command's Exit, one for every entry to EXECUTING so far. */
  function Expected(cfg: PlanConf, i: nat, n: NodeRec, h: Hist, k: CondIdx): int
    requires i < |cfg|
  {
    if SlotsOf(cfg, i)(k).Some? then
      Count(cfg[i].kind, n.state, k) + (if cfg[i].kind == Command && k == Exit then h.executions else 0)
    else 0
  }

  ghost predicate CountOk(cfg: PlanConf, s: Plan, i: nat, k: CondIdx)
    requires Sized(cfg, s) && i < |cfg|
  {
    s.nodes[i].active(k) == Expected(cfg, i, s.nodes[i], s.hist[i], k)
  }

  ghost predicate ActInv(cfg: PlanConf, s: Plan)
    requires Sized(cfg, s)
  {
    forall i: nat, k: CondIdx | i < |cfg| :: CountOk(cfg, s, i, k)
  }

  lemma {:induction false} CommitKeepsCount(cfg: PlanConf, s: Plan, i: nat, t: Plan, k: CondIdx)
    requires Inv(cfg, s) && CommitEffect(cfg, s, i, t) && s.nodes[i].queue == StateChange && CountOk(cfg, s, i, k)
    requires CountEffect(cfg[i].kind, SlotsOf(cfg, i), s.nodes[i], t.nodes[i], k)
    ensures CountOk(cfg, t, i, k)
  {
    assert NodeOk(cfg, s, i);
    DeltaFollowsDiagram(cfg[i].kind, s.nodes[i].state, t.nodes[i].state, k);
  }

  lemma {:induction false} CommitKeepsAct(cfg: PlanConf, s: Plan, i: nat, t: Plan)
    requires Inv(cfg, s) && ActInv(cfg, s) && CommitEffect(cfg, s, i, t) && s.nodes[i].queue == StateChange
    requires forall k: CondIdx :: CountEffect(cfg[i].kind, SlotsOf(cfg, i), s.nodes[i], t.nodes[i], k)
    ensures ActInv(cfg, t)
  {
    forall j: nat, k: CondIdx | j < |cfg| ensures CountOk(cfg, t, j, k) {
      if j == i {
        assert CountOk(cfg, s, i, k);
        CommitKeepsCount(cfg, s, i, t, k);
      } else {
        assert Touched(s.nodes[j], t.nodes[j]);
        SameCount(cfg, s, t, j, k);
      }
    }
  }

  lemma StepKeepsAct(cfg: PlanConf, s: Plan, step: Step)
    requires Inv(cfg, s) && ActInv(cfg, s) && Enabled(cfg, s, step)
    ensures Sized(cfg, Apply(cfg, s, step)) && ActInv(cfg, Apply(cfg, s, step))
  {
    if step.Commit? {
      CommitShape(cfg, s, step.node, step.rhs);
      CommitKeepsAct(cfg, s, step.node, Apply(cfg, s, step));
    } else if step.Check? || step.Resolve? {
      QueueStepKeepsAct(cfg, s, step);
    } else {
      TouchShape(cfg, s, step);
      assert forall j | 0 <= j < |cfg| ::
        Touched(s.nodes[j], Apply(cfg, s, step).nodes[j]) ==>
        Apply(cfg, s, step).nodes[j].state == s.nodes[j].state
        && Apply(cfg, s, step).nodes[j].active == s.nodes[j].active;
      QuietKeepsAct(cfg, s, Apply(cfg, s, step));
    }
  }

  lemma QueueStepKeepsAct(cfg: PlanConf, s: Plan, step: Step)
    requires Inv(cfg, s) && ActInv(cfg, s) && Enabled(cfg, s, step) && (step.Check? || step.Resolve?)
    ensures Sized(cfg, Apply(cfg, s, step)) && ActInv(cfg, Apply(cfg, s, step))
  {
    var t := Apply(cfg, s, step);
    if step.Check? { CheckShape(cfg, s, step.node); } else { ResolveShape(cfg, s, step.node); }
    QueuedActive(s.nodes[step.node], Decide(cfg, s, step.node), NeedsResources(cfg[step.node]),
      CanAcquire(cfg[step.node], s));
    QuietKeepsAct(cfg, s, t);
  }

  lemma QueuedActive(n: NodeRec, d: Decision, needs: bool, free: bool)
    ensures Checked(n, d, needs).active == n.active && Resolved(n, d, free).active == n.active
  {
  }

  lemma {:induction false} SameCount(cfg: PlanConf, s: Plan, t: Plan, i: nat, k: CondIdx)
    requires Sized(cfg, s) && Sized(cfg, t) && i < |cfg| && CountOk(cfg, s, i, k)
    requires t.nodes[i].state == s.nodes[i].state && t.nodes[i].active == s.nodes[i].active
    requires t.hist[i].executions == s.hist[i].executions
    ensures CountOk(cfg, t, i, k)
  {
  }

  lemma QuietKeepsAct(cfg: PlanConf, s: Plan, t: Plan)
    requires Sized(cfg, s) && ActInv(cfg, s) && Sized(cfg, t) && |t.hist| == |s.hist|
    requires forall j | 0 <= j < |cfg| ::
      && t.nodes[j].state == s.nodes[j].state && t.nodes[j].active == s.nodes[j].active
      && t.hist[j].executions == s.hist[j].executions
    ensures ActInv(cfg, t)
  {
    forall j: nat, k: CondIdx | j < |cfg| ensures CountOk(cfg, t, j, k) {
      SameCount(cfg, s, t, j, k);
    }
  }

  /** Every non-null local condition that getDestState may read is active when it is read. */
  lemma {:induction false} ReadConditionsAreActive(cfg: PlanConf, s: Plan, i: nat, k: CondIdx)
    requires Inv(cfg, s) && ActInv(cfg, s) && i < |cfg|
    requires SlotsOf(cfg, i)(k).Some? && ReadIn(cfg[i].kind, s.nodes[i].state, k)
    ensures s.nodes[i].active(k) >= 1
  {
    assert NodeOk(cfg, s, i) && CountOk(cfg, s, i, k);
  }

  /** A child reads its parent's ancestor slots. */
  lemma {:induction false} ReadFromParent(cfg: PlanConf, c: nat, l: nat, k: CondIdx)
    requires c < |cfg| && cfg[c].parent == Some(l) && l < c && IsAncestorSlot(k)
    ensures Readable(cfg, c)(k) == SlotsOf(cfg, l)(k)
  {
  }

  lemma {:induction false} AncestorSlotCount(cfg: PlanConf, l: nat, n: NodeRec, h: Hist, k: CondIdx)
    requires l < |cfg| && cfg[l].kind == List && IsAncestorSlot(k) && SlotsOf(cfg, l)(k).Some?
    ensures Expected(cfg, l, n, h, k) == if Running(n.state) then 1 else 0
  {
  }

  /** No slot is ever deactivated more often than it was activated. */
  lemma CountsNeverNegative(cfg: PlanConf, s: Plan, i: nat, k: CondIdx)
    requires Sized(cfg, s) && ActInv(cfg, s) && i < |cfg|
    ensures s.nodes[i].active(k) >= 0
  {
    assert CountOk(cfg, s, i, k);
  }
}
