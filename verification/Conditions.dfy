/** Condition slots of a node and how list nodes build the ancestor conditions
    their children read. */
module Conditions {
  import opened NodeConstants
  import opened Options

  /** The expression a condition slot points to. */
  datatype Cond =
    | User(node: nat, which: CondIdx)
    | OrOf(left: Cond, right: Cond)
    | AndOf(left: Cond, right: Cond)
    | AllFinished(node: nat)
    | AllWaitingOrFinished(node: nat)
    | Interruptible(node: nat)
    | Acknowledged(node: nat)
    | Aborted(node: nat)

  /** A node's condition slots; None is a null slot. */
  type Slots = CondIdx -> Option<Cond>

  /** The fixed part of a node: its type, its parent, the conditions its author
      supplied, the mutexes it uses, (for an Assignment) its base variable, and its priority
      (numerically lowest first). */
  datatype NodeConf = NodeConf(
    kind: Kind,
    parent: Option<nat>,
    user: set<CondIdx>,
    mutexes: seq<nat>,
    variable: nat,
    priority: int)

  type PlanConf = seq<NodeConf>

  ghost predicate NoDuplicates<T>(s: seq<T>) {
    forall i, j :: 0 <= i < j < |s| ==> s[i] != s[j]
  }

  /** Nodes are numbered so that parents come before their children, as the plan
      parser constructs and finalises them; only list nodes have children; the
      parser accepts no unknown condition and no mutex named twice. */
  ghost predicate WellFormed(cfg: PlanConf) {
    forall i | 0 <= i < |cfg| :: NodeWellFormed(cfg, i)
  }

  ghost predicate NodeWellFormed(cfg: PlanConf, i: nat)
    requires i < |cfg|
  {
    && (cfg[i].parent.Some? ==> cfg[i].parent.value < i && cfg[cfg[i].parent.value].kind == List)
    && cfg[i].user <= UserIdx
    && NoDuplicates(cfg[i].mutexes)
  }

  predicate IsChild(cfg: PlanConf, c: nat, p: nat) {
    c < |cfg| && cfg[c].parent == Some(p)
  }

  /** a is a proper ancestor of i. */
  predicate IsAncestor(cfg: PlanConf, a: nat, i: nat): (b: bool)
    ensures b ==> a < i < |cfg|
    decreases i
  {
    && i < |cfg|
    && cfg[i].parent.Some?
    && cfg[i].parent.value < i
    && (a == cfg[i].parent.value || IsAncestor(cfg, a, cfg[i].parent.value))
  }

  // ----- slots -----

  function Store(s: Slots, k: CondIdx, c: Option<Cond>): Slots {
    q => if q == k then c else s(q)
  }

  /** Slots as the parser leaves them, before finalizeConditions. */
  function OwnSlots(conf: NodeConf, i: nat): Slots {
    k =>
      if k == ActionComplete && conf.kind == Assignment then Some(Acknowledged(i))
      else if k == AbortComplete && conf.kind == Assignment then Some(Aborted(i))
      else if (k == ActionComplete || k == AbortComplete) && conf.kind == Command then Some(User(i, k))
      else if k in conf.user then Some(User(i, k))
      else None
  }

  /** Two optional conditions joined by OR or AND; a null one is the identity. */
  function Join(isOr: bool, own: Option<Cond>, inherited: Option<Cond>): Option<Cond> {
    match (own, inherited)
    case (None, _) => inherited
    case (_, None) => own
    case (Some(a), Some(b)) => Some(if isOr then OrOf(a, b) else AndOf(a, b))
  }

  /** A slot of the parent's, if there is one. */
  function Inherited(parent: Option<Slots>, k: CondIdx): Option<Cond> {
    if parent.Some? then parent.value(k) else None
  }

  /** What finalizeConditions makes of a node's slots, given its parent's finished slots. */
  function Wrapped(kind: Kind, i: nat, own: Slots, parent: Option<Slots>): Slots {
    match kind
    case List =>
      (k: CondIdx) => (match k
            case AncestorExit => Join(true, own(Exit), Inherited(parent, AncestorExit))
            case AncestorInvariant => Join(false, own(Invariant), Inherited(parent, AncestorInvariant))
            case AncestorEnd => Join(true, own(End), Inherited(parent, AncestorEnd))
            case ActionComplete => Some(AllWaitingOrFinished(i))
            case End => if own(End).Some? then own(End) else Some(AllFinished(i))
            case _ => own(k))
    case Command =>
      if own(End).Some? then Store(own, End, Some(OrOf(Interruptible(i), own(End).value))) else own
    case _ => own
  }

  /** The finished slots of node i; parents are finalised first. */
  function SlotsOf(cfg: PlanConf, i: nat): Slots
    requires i < |cfg|
    decreases i
  {
    var p := cfg[i].parent;
    Wrapped(cfg[i].kind, i, OwnSlots(cfg[i], i),
            if p.Some? && p.value < i then Some(SlotsOf(cfg, p.value)) else None)
  }

  /** getCondition: the three ancestor conditions are read from the parent. */
  function Readable(cfg: PlanConf, i: nat): Slots
    requires i < |cfg|
  {
    var p := cfg[i].parent;
    k => if k == AncestorExit || k == AncestorInvariant || k == AncestorEnd
         then (if p.Some? && p.value < i then SlotsOf(cfg, p.value)(k) else None)
         else SlotsOf(cfg, i)(k)
  }

  /** Empty and Assignment nodes wrap no condition. */
  lemma {:induction false} UnwrappedSlot(cfg: PlanConf, i: nat, k: CondIdx)
    requires i < |cfg| && (cfg[i].kind == Empty || cfg[i].kind == Assignment)
    requires k !in {AncestorExit, AncestorInvariant, AncestorEnd}
    ensures Readable(cfg, i)(k) == SlotsOf(cfg, i)(k) == OwnSlots(cfg[i], i)(k)
  {
  }

  // ----- evaluation -----

  datatype CommandHandle = NoHandle | Denied | Failed | InterfaceError | OtherHandle

  /** What conditions are evaluated against: the node states, the values of the
      authors' expressions, the command handles, and the flags of each Assignment. */
  datatype World = World(
    states: seq<NodeState>,
    values: map<(nat, CondIdx), Tri>,
    handles: map<nat, CommandHandle>,
    acks: set<nat>,
    aborts: set<nat>)

  function UserValue(w: World, i: nat, k: CondIdx): Tri {
    if (i, k) in w.values then w.values[(i, k)] else Unknown
  }

  function Truth(b: bool): Tri {
    if b then True else False
  }

  predicate ChildrenIn(cfg: PlanConf, states: seq<NodeState>, i: nat, allowed: set<NodeState>) {
    forall c | 0 <= c < |cfg| && c < |states| && IsChild(cfg, c, i) :: states[c] in allowed
  }

  function Eval(cfg: PlanConf, w: World, c: Cond): Tri {
    match c
    case User(i, k) => UserValue(w, i, k)
    case OrOf(a, b) => KleeneOr(Eval(cfg, w, a), Eval(cfg, w, b))
    case AndOf(a, b) => KleeneAnd(Eval(cfg, w, a), Eval(cfg, w, b))
    case AllFinished(i) => Truth(ChildrenIn(cfg, w.states, i, {Finished}))
    case AllWaitingOrFinished(i) => Truth(ChildrenIn(cfg, w.states, i, {Waiting, Finished}))
    case Interruptible(i) =>
      Truth(i in w.handles && w.handles[i] in {Denied, Failed, InterfaceError})
    case Acknowledged(i) => Truth(i in w.acks)
    case Aborted(i) => Truth(i in w.aborts)
  }

  /** What getDestState sees of each condition: nothing for a null slot, else its value. */
  type Conds = CondIdx -> Option<Tri>

  function EvalSlot(cfg: PlanConf, w: World, slot: Option<Cond>): Option<Tri> {
    if slot.Some? then Some(Eval(cfg, w, slot.value)) else None
  }

  /** The values of the conditions node i can read. */
  function Env(cfg: PlanConf, w: World, i: nat): Conds
    requires i < |cfg|
  {
    k => EvalSlot(cfg, w, Readable(cfg, i)(k))
  }

  predicate KnownTrue(c: Conds, k: CondIdx) {
    c(k) == Some(True)
  }

  predicate KnownFalse(c: Conds, k: CondIdx) {
    c(k) == Some(False)
  }

  /** A non-null condition that is false or unknown. */
  predicate Unmet(c: Conds, k: CondIdx) {
    c(k).Some? && c(k) != Some(True)
  }

  // ----- ancestor conditions are a fold over the proper ancestors -----

  /** The user condition that the given ancestor condition collects. */
  function Collects(k: CondIdx): CondIdx {
    match k
    case AncestorExit => Exit
    case AncestorInvariant => Invariant
    case _ => End
  }

  /** The value that decides the fold whatever the others are. */
  function Decisive(k: CondIdx): Tri {
    if k == AncestorInvariant then False else True
  }

  ghost predicate SomeAncestorHas(cfg: PlanConf, i: nat, u: CondIdx) {
    exists a: nat {:trigger IsAncestor(cfg, a, i)} :: IsAncestor(cfg, a, i) && u in cfg[a].user
  }

  ghost predicate SomeAncestorIs(cfg: PlanConf, w: World, i: nat, u: CondIdx, v: Tri) {
    exists a: nat {:trigger IsAncestor(cfg, a, i)} ::
      IsAncestor(cfg, a, i) && u in cfg[a].user && UserValue(w, a, u) == v
  }

  /** An ancestor condition is null exactly when no proper ancestor supplies the
      collected condition; otherwise it has the decisive value exactly when some
      proper ancestor's condition has it, and is unknown exactly when none is
      decisive and some is unknown. */
  lemma {:induction false} AncestorConditionIsFold(cfg: PlanConf, w: World, i: nat, k: CondIdx)
    requires WellFormed(cfg) && i < |cfg|
    requires k in {AncestorExit, AncestorInvariant, AncestorEnd}
    ensures Env(cfg, w, i)(k).Some? <==> SomeAncestorHas(cfg, i, Collects(k))
    ensures Env(cfg, w, i)(k).Some? ==>
      && (Env(cfg, w, i)(k).value == Decisive(k) <==> SomeAncestorIs(cfg, w, i, Collects(k), Decisive(k)))
      && (Env(cfg, w, i)(k).value == Unknown <==>
          !SomeAncestorIs(cfg, w, i, Collects(k), Decisive(k))
          && SomeAncestorIs(cfg, w, i, Collects(k), Unknown))
    decreases i
  {
    assert NodeWellFormed(cfg, i);
    if cfg[i].parent.Some? {
      AncestorConditionIsFold(cfg, w, cfg[i].parent.value, k);
      InheritedValue(cfg, w, i, k);
      SplitAtParent(cfg, w, i, Collects(k));
    } else {
      assert Readable(cfg, i)(k) == None;
    }
  }

  function JoinValues(isOr: bool, own: Option<Tri>, inherited: Option<Tri>): Option<Tri> {
    match (own, inherited)
    case (None, _) => inherited
    case (_, None) => own
    case (Some(a), Some(b)) => Some(if isOr then KleeneOr(a, b) else KleeneAnd(a, b))
  }

  /** One step of the fold, in terms of values. */
  lemma InheritedValue(cfg: PlanConf, w: World, i: nat, k: CondIdx)
    requires WellFormed(cfg) && i < |cfg| && cfg[i].parent.Some?
    requires k in {AncestorExit, AncestorInvariant, AncestorEnd}
    ensures cfg[i].parent.value < i
    ensures var p, u := cfg[i].parent.value, Collects(k);
      Env(cfg, w, i)(k) == JoinValues(k != AncestorInvariant,
        if u in cfg[p].user then Some(UserValue(w, p, u)) else None, Env(cfg, w, p)(k))
  {
    assert NodeWellFormed(cfg, i);
    var p := cfg[i].parent.value;
    assert Readable(cfg, i)(k) == SlotsOf(cfg, p)(k);
    ListSlot(cfg, p, k);
    JoinedValue(cfg, w, k != AncestorInvariant, OwnUser(cfg, p, Collects(k)), Readable(cfg, p)(k));
  }

  lemma JoinedValue(cfg: PlanConf, w: World, isOr: bool, own: Option<Cond>, inherited: Option<Cond>)
    ensures EvalSlot(cfg, w, Join(isOr, own, inherited))
         == JoinValues(isOr, EvalSlot(cfg, w, own), EvalSlot(cfg, w, inherited))
  {
  }

  /** The proper ancestors of a child are its parent and the parent's proper ancestors. */
  lemma SplitAtParent(cfg: PlanConf, w: World, i: nat, u: CondIdx)
    requires WellFormed(cfg) && i < |cfg| && cfg[i].parent.Some?
    ensures cfg[i].parent.value < i
    ensures var p := cfg[i].parent.value;
      && (SomeAncestorHas(cfg, i, u) <==> u in cfg[p].user || SomeAncestorHas(cfg, p, u))
      && (forall v :: SomeAncestorIs(cfg, w, i, u, v) <==>
            (u in cfg[p].user && UserValue(w, p, u) == v) || SomeAncestorIs(cfg, w, p, u, v))
  {
    assert NodeWellFormed(cfg, i);
    var p := cfg[i].parent.value;
    assert forall a: nat {:trigger IsAncestor(cfg, a, i)} {:trigger IsAncestor(cfg, a, p)} ::
      IsAncestor(cfg, a, i) <==> a == p || IsAncestor(cfg, a, p);
    assert IsAncestor(cfg, p, i);
  }

  /** The End of a Command is null if its author gave none; if one was given, it is also met by a
      command that was denied, that failed, or that could not be sent. */
  lemma {:induction false} CommandEnd(cfg: PlanConf, w: World, i: nat)
    requires i < |cfg| && cfg[i].kind == Command
    ensures Env(cfg, w, i)(End).None? <==> End !in cfg[i].user
    ensures End in cfg[i].user ==>
      var cut := i in w.handles &&
        (w.handles[i] == Denied || w.handles[i] == CommandHandle.Failed || w.handles[i] == InterfaceError);
      && (Env(cfg, w, i)(End) == Some(True) <==> cut || UserValue(w, i, End) == True)
      && (Env(cfg, w, i)(End) == Some(Unknown) <==> !cut && UserValue(w, i, End) == Unknown)
  {
    var own := OwnSlots(cfg[i], i);
    assert SlotsOf(cfg, i)(End) == if End in cfg[i].user then Some(OrOf(Interruptible(i), User(i, End))) else None;
    assert Readable(cfg, i)(End) == SlotsOf(cfg, i)(End);
    if End in cfg[i].user {
      CutOrEnd(cfg, w, i, User(i, End));
    }
  }

  lemma {:induction false} CutOrEnd(cfg: PlanConf, w: World, i: nat, c: Cond)
    ensures Eval(cfg, w, OrOf(Interruptible(i), c)) == KleeneOr(Eval(cfg, w, Interruptible(i)), Eval(cfg, w, c))
    ensures Eval(cfg, w, Interruptible(i)) != Unknown
  {
  }

  /** The ancestor slot of a list joins its own user condition with the one it inherits. */
  lemma {:induction false} ListSlot(cfg: PlanConf, p: nat, k: CondIdx)
    requires WellFormed(cfg) && p < |cfg| && cfg[p].kind == List
    requires k in {AncestorExit, AncestorInvariant, AncestorEnd}
    ensures SlotsOf(cfg, p)(k) == Join(k != AncestorInvariant, OwnUser(cfg, p, Collects(k)), Readable(cfg, p)(k))
  {
    assert NodeWellFormed(cfg, p);
    var own := OwnSlots(cfg[p], p);
    assert own(Collects(k)) == OwnUser(cfg, p, Collects(k));
    var up := if cfg[p].parent.Some? then Some(SlotsOf(cfg, cfg[p].parent.value)) else None;
    assert SlotsOf(cfg, p) == Wrapped(List, p, own, up);
    assert Readable(cfg, p)(k) == Inherited(up, k);
  }

  function OwnUser(cfg: PlanConf, p: nat, u: CondIdx): Option<Cond>
    requires p < |cfg|
  {
    if u in cfg[p].user then Some(User(p, u)) else None
  }
}
