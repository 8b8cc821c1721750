/** Which expressions are active.  Slots of several nodes can point to one expression, itself or
    as an argument of another: activating an expression activates its arguments. */
module ActiveConditions {
  import opened NodeConstants
  import opened Options
  import opened Conditions
  import opened NodeLogic
  import opened PlanMachine
  import opened PlanInvariant
  import opened Activation

  /** x is c or is among its arguments, or theirs. */
  predicate Contains(c: Cond, x: Cond) {
    c == x
    || match c
       case OrOf(a, b) => Contains(a, x) || Contains(b, x)
       case AndOf(a, b) => Contains(a, x) || Contains(b, x)
       case _ => false
  }

  predicate Holds(slot: Option<Cond>, x: Cond) {
    slot.Some? && Contains(slot.value, x)
  }

  /** Notifier::isActive: some slot that leads to the expression has been activated more often
      than deactivated. */
  ghost predicate IsActive(cfg: PlanConf, s: Plan, x: Cond)
    requires Sized(cfg, s)
  {
    exists i: nat, k: CondIdx :: ActivatedBy(cfg, s, x, i, k)
  }

  ghost predicate ActivatedBy(cfg: PlanConf, s: Plan, x: Cond, i: nat, k: CondIdx)
    requires Sized(cfg, s)
  {
    i < |cfg| && Holds(SlotsOf(cfg, i)(k), x) && s.nodes[i].active(k) > 0
  }

  // ----- who supplies an ancestor condition, and who shares it -----

  predicate Within(cfg: PlanConf, o: nat, l: nat) {
    o == l || IsAncestor(cfg, o, l)
  }

  /** The nearest list, from l upwards, that supplies the collected condition itself. */
  ghost predicate Supplies(cfg: PlanConf, o: nat, l: nat, u: CondIdx) {
    && o < |cfg| && cfg[o].kind == List && u in cfg[o].user && Within(cfg, o, l)
    && forall a: nat | IsAncestor(cfg, o, a) && Within(cfg, a, l) :: a < |cfg| && u !in cfg[a].user
  }

  /** Every list below the supplier up to l shares the supplier's expression. */
  lemma {:induction false} Supplier(cfg: PlanConf, l: nat, k: CondIdx) returns (o: nat)
    requires WellFormed(cfg) && l < |cfg| && cfg[l].kind == List && IsAncestorSlot(k) && SlotsOf(cfg, l)(k).Some?
    ensures Supplies(cfg, o, l, Collects(k)) && SlotsOf(cfg, o)(k) == SlotsOf(cfg, l)(k)
    decreases l
  {
    assert NodeWellFormed(cfg, l);
    ListSlot(cfg, l, k);
    if Collects(k) in cfg[l].user {
      o := l;
    } else {
      var p := cfg[l].parent.value;
      o := Supplier(cfg, p, k);
      assert Readable(cfg, l)(k) == SlotsOf(cfg, p)(k);
      forall a: nat | IsAncestor(cfg, o, a) && Within(cfg, a, l) ensures a < |cfg| && Collects(k) !in cfg[a].user {
        assert a == l || Within(cfg, a, p);
      }
    }
  }

  lemma JoinHolds(isOr: bool, own: Option<Cond>, inherited: Option<Cond>, x: Cond)
    ensures Holds(own, x) || Holds(inherited, x) ==> Holds(Join(isOr, own, inherited), x)
    ensures x.User? && Holds(Join(isOr, own, inherited), x) ==> Holds(own, x) || Holds(inherited, x)
  {
  }

  /** The slot of a list and that of its parent. */
  lemma {:induction false} SlotAndParents(cfg: PlanConf, d: nat, k: CondIdx, x: Cond)
    requires WellFormed(cfg) && d < |cfg| && cfg[d].kind == List && IsAncestorSlot(k)
    ensures cfg[d].parent.Some? ==> cfg[d].parent.value < d && cfg[cfg[d].parent.value].kind == List
    ensures var own := OwnUser(cfg, d, Collects(k));
      var above := if cfg[d].parent.Some? then SlotsOf(cfg, cfg[d].parent.value)(k) else None;
      && (Holds(own, x) || Holds(above, x) ==> Holds(SlotsOf(cfg, d)(k), x))
      && (x.User? && Holds(SlotsOf(cfg, d)(k), x) ==> Holds(own, x) || Holds(above, x))
  {
    assert NodeWellFormed(cfg, d);
    ListSlot(cfg, d, k);
    var above := if cfg[d].parent.Some? then SlotsOf(cfg, cfg[d].parent.value)(k) else None;
    assert Readable(cfg, d)(k) == above;
    JoinHolds(k != AncestorInvariant, OwnUser(cfg, d, Collects(k)), above, x);
  }

  /** Every list within the supplier has the supplier's expression in its slot. */
  lemma {:induction false} SharedBelow(cfg: PlanConf, o: nat, d: nat, k: CondIdx, x: Cond)
    requires WellFormed(cfg) && d < |cfg| && cfg[d].kind == List && IsAncestorSlot(k)
    requires o < |cfg| && SlotsOf(cfg, o)(k) == Some(x) && Within(cfg, o, d)
    ensures Holds(SlotsOf(cfg, d)(k), x)
    decreases d
  {
    if o != d {
      SlotAndParents(cfg, d, k, x);
      SharedBelow(cfg, o, cfg[d].parent.value, k, x);
    }
  }

  /** A condition that a list supplies is found in the slot it was supplied for, and in the
      ancestor slots of the lists within that list, and nowhere else. */
  lemma {:induction false} FoundIn(cfg: PlanConf, i: nat, k: CondIdx, o: nat, u: CondIdx)
    requires WellFormed(cfg) && i < |cfg| && o < |cfg| && Holds(SlotsOf(cfg, i)(k), User(o, u))
    ensures if cfg[i].kind == List && IsAncestorSlot(k) then u == Collects(k) && Within(cfg, o, i) else i == o && k == u
    decreases i
  {
    if cfg[i].kind == List && IsAncestorSlot(k) {
      SlotAndParents(cfg, i, k, User(o, u));
      if !Holds(OwnUser(cfg, i, Collects(k)), User(o, u)) {
        FoundIn(cfg, cfg[i].parent.value, k, o, u);
      }
    } else {
      LocalSlotHolds(cfg, i, k, User(o, u));
    }
  }

  lemma {:induction false} LocalSlotHolds(cfg: PlanConf, i: nat, k: CondIdx, x: Cond)
    requires i < |cfg| && !(cfg[i].kind == List && IsAncestorSlot(k)) && x.User? && Holds(SlotsOf(cfg, i)(k), x)
    ensures x == User(i, k)
  {
    var own := OwnSlots(cfg[i], i)(k);
    if cfg[i].kind == Command && k == End && own.Some? {
      assert SlotsOf(cfg, i)(k) == Some(OrOf(Interruptible(i), own.value));
      assert Contains(Interruptible(i), x) || Contains(own.value, x);
    }
  }

  lemma {:induction false} ContainsTransitively(c: Cond, x: Cond, y: Cond)
    requires Contains(c, x) && Contains(x, y)
    ensures Contains(c, y)
  {
    if c != x {
      match c {
        case OrOf(a, b) => ContainsTransitively(if Contains(a, x) then a else b, x, y);
        case AndOf(a, b) => ContainsTransitively(if Contains(a, x) then a else b, x, y);
      }
    }
  }

  // ----- when it is active -----

  /** Some list within o is running; it activates its ancestor slots for its children. */
  ghost predicate SomeListRuns(cfg: PlanConf, s: Plan, o: nat)
    requires Sized(cfg, s)
  {
    exists d: nat :: RunsWithin(cfg, s, o, d)
  }

  ghost predicate RunsWithin(cfg: PlanConf, s: Plan, o: nat, d: nat)
    requires Sized(cfg, s)
  {
    d < |cfg| && cfg[d].kind == List && Within(cfg, o, d) && Running(s.nodes[d].state)
  }

  /** Nothing is joined to the condition that list o supplies, so that it is the same expression
      in its own slot and for the children, and it is active there. */
  ghost predicate ActiveItself(cfg: PlanConf, s: Plan, o: nat, u: CondIdx)
    requires Sized(cfg, s) && o < |cfg|
  {
    !SomeAncestorHas(cfg, o, u) && ActiveIn(List, s.nodes[o].state, u)
  }

  /** What the supplier's slot is made of. */
  lemma {:induction false} SuppliedSlot(cfg: PlanConf, o: nat, k: CondIdx, x: Cond)
    requires WellFormed(cfg) && o < |cfg| && cfg[o].kind == List && IsAncestorSlot(k) && Collects(k) in cfg[o].user
    requires SlotsOf(cfg, o)(k) == Some(x)
    ensures Contains(x, User(o, Collects(k)))
    ensures x == User(o, Collects(k)) <==> !SomeAncestorHas(cfg, o, Collects(k))
  {
    ListSlot(cfg, o, k);
    AncestorConditionIsFold(cfg, World([], map[], map[], {}, {}), o, k);
    assert Readable(cfg, o)(k).Some? <==> Env(cfg, World([], map[], map[], {}, {}), o)(k).Some?;
  }

  lemma {:induction false} AncestorCount(cfg: PlanConf, s: Plan, d: nat, k: CondIdx)
    requires WellFormed(cfg) && Sized(cfg, s) && ActInv(cfg, s) && d < |cfg| && cfg[d].kind == List && IsAncestorSlot(k)
    requires SlotsOf(cfg, d)(k).Some?
    ensures s.nodes[d].active(k) > 0 <==> Running(s.nodes[d].state)
  {
    assert CountOk(cfg, s, d, k);
    AncestorSlotCount(cfg, d, s.nodes[d], s.hist[d], k);
  }

  lemma {:induction false} OwnCount(cfg: PlanConf, s: Plan, o: nat, u: CondIdx)
    requires WellFormed(cfg) && Sized(cfg, s) && ActInv(cfg, s) && o < |cfg| && cfg[o].kind == List
    requires u in cfg[o].user && u != ActionComplete && !IsAncestorSlot(u)
    ensures SlotsOf(cfg, o)(u) == Some(User(o, u))
    ensures s.nodes[o].active(u) > 0 <==> ActiveIn(List, s.nodes[o].state, u)
  {
    ListLocalSlot(cfg, o, u);
    assert CountOk(cfg, s, o, u);
  }

  /** What list o supplies to the lists within it is active exactly while one of them is running,
      or, if o inherits nothing, while o itself keeps the condition active. */
  lemma {:induction false} ActiveExactly(cfg: PlanConf, s: Plan, o: nat, k: CondIdx, x: Cond)
    requires WellFormed(cfg) && Sized(cfg, s) && ActInv(cfg, s) && o < |cfg| && cfg[o].kind == List
    requires IsAncestorSlot(k) && Collects(k) in cfg[o].user && SlotsOf(cfg, o)(k) == Some(x)
    ensures IsActive(cfg, s, x) <==> SomeListRuns(cfg, s, o) || ActiveItself(cfg, s, o, Collects(k))
  {
    var u := Collects(k);
    SuppliedSlot(cfg, o, k, x);
    OwnCount(cfg, s, o, u);
    if SomeListRuns(cfg, s, o) {
      var d: nat :| RunsWithin(cfg, s, o, d);
      SharedBelow(cfg, o, d, k, x);
      AncestorCount(cfg, s, d, k);
      assert ActivatedBy(cfg, s, x, d, k);
    } else if ActiveItself(cfg, s, o, u) {
      assert ActivatedBy(cfg, s, x, o, u);
    } else if IsActive(cfg, s, x) {
      var i: nat, q: CondIdx :| ActivatedBy(cfg, s, x, i, q);
      ActivatorIsKnown(cfg, s, o, k, x, i, q);
    }
  }

  lemma {:induction false} ActivatorIsKnown(cfg: PlanConf, s: Plan, o: nat, k: CondIdx, x: Cond, i: nat, q: CondIdx)
    requires WellFormed(cfg) && Sized(cfg, s) && ActInv(cfg, s) && o < |cfg| && cfg[o].kind == List
    requires IsAncestorSlot(k) && Collects(k) in cfg[o].user && SlotsOf(cfg, o)(k) == Some(x)
    requires ActivatedBy(cfg, s, x, i, q)
    ensures SomeListRuns(cfg, s, o) || ActiveItself(cfg, s, o, Collects(k))
  {
    var u := Collects(k);
    SuppliedSlot(cfg, o, k, x);
    ContainsTransitively(SlotsOf(cfg, i)(q).value, x, User(o, u));
    FoundIn(cfg, i, q, o, u);
    if cfg[i].kind == List && IsAncestorSlot(q) {
      AncestorCount(cfg, s, i, q);
      assert RunsWithin(cfg, s, o, i);
    } else {
      OwnCount(cfg, s, o, u);
    }
  }
}
