/** Leaving the default End condition out of a list's ancestor-end condition: when that
    changes nothing, and what exactly it changes otherwise. */
module EndElision {
  import opened NodeConstants
  import opened Options
  import opened Conditions
  import opened NodeLogic
  import opened PlanInvariant

  /** The End condition of a list: its own, or that all its children have finished. */
  function EndValue(cfg: PlanConf, w: World, a: nat): Tri
    requires a < |cfg|
  {
    if End in cfg[a].user then UserValue(w, a, End)
    else Truth(ChildrenIn(cfg, w.states, a, {Finished}))
  }

  /** Ancestor-end without the elision: every proper ancestor's End condition, joined. */
  function FullAncestorEnd(cfg: PlanConf, w: World, i: nat): Option<Tri>
    requires i < |cfg|
    decreases i
  {
    if cfg[i].parent.Some? && cfg[i].parent.value < i then
      var p := cfg[i].parent.value;
      match FullAncestorEnd(cfg, w, p)
      case None => Some(EndValue(cfg, w, p))
      case Some(up) => Some(KleeneOr(EndValue(cfg, w, p), up))
    else None
  }

  function FullEnv(cfg: PlanConf, w: World, i: nat): Conds
    requires i < |cfg|
  {
    k => if k == AncestorEnd then FullAncestorEnd(cfg, w, i) else Env(cfg, w, i)(k)
  }

  /** Some proper ancestor relies on its default End, and all its children have finished. */
  ghost predicate SomeDefaultEndMet(cfg: PlanConf, w: World, i: nat) {
    exists a: nat {:trigger IsAncestor(cfg, a, i)} ::
      IsAncestor(cfg, a, i) && End !in cfg[a].user && ChildrenIn(cfg, w.states, a, {Finished})
  }

  /** The unelided condition is true in exactly the cases the elided one is, and those in
      which some default End is met. */
  lemma {:induction false} ElisionDropsExactly(cfg: PlanConf, w: World, i: nat)
    requires WellFormed(cfg) && i < |cfg|
    ensures KnownTrue(FullEnv(cfg, w, i), AncestorEnd)
      <==> KnownTrue(Env(cfg, w, i), AncestorEnd) || SomeDefaultEndMet(cfg, w, i)
    decreases i
  {
    assert NodeWellFormed(cfg, i);
    AncestorConditionIsFold(cfg, w, i, AncestorEnd);
    if cfg[i].parent.Some? {
      var p := cfg[i].parent.value;
      ElisionDropsExactly(cfg, w, p);
      AncestorConditionIsFold(cfg, w, p, AncestorEnd);
      SplitAtParent(cfg, w, i, End);
      assert SomeAncestorIs(cfg, w, i, End, True) <==>
        (End in cfg[p].user && UserValue(w, p, End) == True) || SomeAncestorIs(cfg, w, p, End, True);
      SplitDefaultEnd(cfg, w, i);
      EndHasCause(cfg, w, i);
      EndHasCause(cfg, w, p);
    }
  }

  lemma EndHasCause(cfg: PlanConf, w: World, i: nat)
    requires WellFormed(cfg) && i < |cfg|
    ensures KnownTrue(Env(cfg, w, i), AncestorEnd) <==> SomeAncestorIs(cfg, w, i, End, True)
  {
    AncestorConditionIsFold(cfg, w, i, AncestorEnd);
    if SomeAncestorIs(cfg, w, i, End, True) {
      assert SomeAncestorHas(cfg, i, End);
    }
  }

  lemma SplitDefaultEnd(cfg: PlanConf, w: World, i: nat)
    requires WellFormed(cfg) && i < |cfg| && cfg[i].parent.Some?
    ensures cfg[i].parent.value < i
    ensures var p := cfg[i].parent.value;
      SomeDefaultEndMet(cfg, w, i) <==>
        (End !in cfg[p].user && ChildrenIn(cfg, w.states, p, {Finished})) || SomeDefaultEndMet(cfg, w, p)
  {
    assert NodeWellFormed(cfg, i);
    var p := cfg[i].parent.value;
    assert forall a: nat {:trigger IsAncestor(cfg, a, i)} {:trigger IsAncestor(cfg, a, p)} ::
      IsAncestor(cfg, a, i) <==> a == p || IsAncestor(cfg, a, p);
    assert IsAncestor(cfg, p, i);
  }

  ghost predicate AncestorsUnfinished(cfg: PlanConf, w: World, i: nat)
    requires |w.states| == |cfg|
  {
    forall a: nat {:trigger IsAncestor(cfg, a, i)} :: IsAncestor(cfg, a, i) ==> w.states[a] != Finished
  }

  /** The list on the path from an ancestor down to i is a child that has not finished. */
  lemma {:induction false} UnfinishedChildOf(cfg: PlanConf, w: World, a: nat, i: nat) returns (c: nat)
    requires WellFormed(cfg) && i < |cfg| == |w.states| && IsAncestor(cfg, a, i)
    requires AncestorsUnfinished(cfg, w, i) && w.states[i] != Finished
    ensures IsChild(cfg, c, a) && w.states[c] != Finished
    decreases i
  {
    var p := cfg[i].parent.value;
    if a == p {
      c := i;
    } else {
      assert IsAncestor(cfg, p, i);
      forall b: nat | IsAncestor(cfg, b, p) ensures w.states[b] != Finished {
        assert IsAncestor(cfg, b, i);
      }
      c := UnfinishedChildOf(cfg, w, a, p);
    }
  }

  /** Ancestor-end is only ever asked whether it is known to be true. */
  lemma OnlyEndDiffers(kind: Kind, s: NodeState, f: FailureType, parent: Option<NodeState>, c: Conds, d: Conds)
    requires forall k :: k != AncestorEnd ==> AgreeOn(c, d, k)
    requires KnownTrue(c, AncestorEnd) <==> KnownTrue(d, AncestorEnd)
    ensures Dest(kind, s, f, parent, c) == Dest(kind, s, f, parent, d)
  {
    forall k | k != AncestorEnd
      ensures KnownTrue(c, k) == KnownTrue(d, k) && KnownFalse(c, k) == KnownFalse(d, k)
      ensures Unmet(c, k) == Unmet(d, k) && c(k) == d(k)
    {
      assert AgreeOn(c, d, k);
    }
  }

  /** The decision asks for ancestor-end, and what it answers makes a difference. */
  predicate Asks(s: NodeState, parent: Option<NodeState>, c: Conds) {
    match s
    case Inactive => parent == Some(Executing) && !KnownTrue(c, AncestorExit) && !KnownFalse(c, AncestorInvariant)
    case Waiting =>
      && !KnownTrue(c, AncestorExit) && !KnownTrue(c, Exit) && !KnownFalse(c, AncestorInvariant) && !KnownTrue(c, Skip)
    case IterationEnded =>
      && !KnownTrue(c, AncestorExit) && !KnownFalse(c, AncestorInvariant)
      && c(Repeat).Some? && c(Repeat) != Some(False)
    case _ => false
  }

  /** Learning that ancestor-end is true changes exactly the decisions that ask for it. */
  lemma EndDecides(kind: Kind, s: NodeState, f: FailureType, parent: Option<NodeState>, c: Conds, d: Conds)
    requires forall k :: k != AncestorEnd ==> AgreeOn(c, d, k)
    requires KnownTrue(c, AncestorEnd) && !KnownTrue(d, AncestorEnd)
    ensures Dest(kind, s, f, parent, c) != Dest(kind, s, f, parent, d) <==> Asks(s, parent, d)
  {
    assert AgreeOn(c, d, AncestorExit) && AgreeOn(c, d, AncestorInvariant) && AgreeOn(c, d, Repeat);
    assert AgreeOn(c, d, Exit) && AgreeOn(c, d, Skip) && AgreeOn(c, d, Start) && AgreeOn(c, d, Pre);
    if d(Repeat).Some? {
      var repeat: Tri := d(Repeat).value;
      assert repeat.Unknown? || repeat.False? || repeat.True?;
    }
    if s == Executing || s == Finishing || s == Failing || s == Finished {
      EndUnasked(kind, s, f, parent, c, d);
    }
  }

  lemma EndUnasked(kind: Kind, s: NodeState, f: FailureType, parent: Option<NodeState>, c: Conds, d: Conds)
    requires forall k :: k != AncestorEnd ==> AgreeOn(c, d, k)
    requires s == Executing || s == Finishing || s == Failing || s == Finished
    ensures Dest(kind, s, f, parent, c) == Dest(kind, s, f, parent, d)
  {
    forall k | k != AncestorEnd
      ensures KnownTrue(c, k) == KnownTrue(d, k) && KnownFalse(c, k) == KnownFalse(d, k) && Unmet(c, k) == Unmet(d, k)
    {
      assert AgreeOn(c, d, k);
    }
  }

  /** The elision changes a decision exactly if some default End is met, no ancestor's own End
      is true, and the decision asks. */
  lemma ElisionMattersExactly(cfg: PlanConf, w: World, i: nat, s: NodeState, f: FailureType, parent: Option<NodeState>)
    requires WellFormed(cfg) && i < |cfg|
    ensures Dest(cfg[i].kind, s, f, parent, FullEnv(cfg, w, i)) != Dest(cfg[i].kind, s, f, parent, Env(cfg, w, i))
      <==> SomeDefaultEndMet(cfg, w, i) && !KnownTrue(Env(cfg, w, i), AncestorEnd) && Asks(s, parent, Env(cfg, w, i))
  {
    ElisionDropsExactly(cfg, w, i);
    if SomeDefaultEndMet(cfg, w, i) && !KnownTrue(Env(cfg, w, i), AncestorEnd) {
      EndDecides(cfg[i].kind, s, f, parent, FullEnv(cfg, w, i), Env(cfg, w, i));
    } else {
      OnlyEndDiffers(cfg[i].kind, s, f, parent, FullEnv(cfg, w, i), Env(cfg, w, i));
    }
  }

  /** While no proper ancestor has finished, the elision changes no decision of the node. */
  lemma ElisionPreservesDecisions(cfg: PlanConf, w: World, i: nat, f: FailureType, parent: Option<NodeState>)
    requires WellFormed(cfg) && i < |cfg| == |w.states| && AncestorsUnfinished(cfg, w, i)
    ensures Dest(cfg[i].kind, w.states[i], f, parent, FullEnv(cfg, w, i))
         == Dest(cfg[i].kind, w.states[i], f, parent, Env(cfg, w, i))
  {
    ElisionMattersExactly(cfg, w, i, w.states[i], f, parent);
    if w.states[i] != Finished && SomeDefaultEndMet(cfg, w, i) {
      var a: nat :| IsAncestor(cfg, a, i) && End !in cfg[a].user && ChildrenIn(cfg, w.states, a, {Finished});
      var c := UnfinishedChildOf(cfg, w, a, i);
    }
  }
}
