/** In which order pending nodes try their resources: that of the pending queue, whatever becomes
    of the others meanwhile. */
module TurnOrder {
  import opened NodeConstants
  import opened Options
  import opened Conditions
  import opened NodeLogic
  import opened WalkedQueue
  import opened PlanMachine
  import opened PlanInvariant
  import opened Contention

  /** If b is due, a is due before it. */
  ghost predicate Before(due: seq<nat>, a: nat, b: nat) {
    b in due ==> exists x, y :: 0 <= x < y < |due| && due[x] == a && due[y] == b
  }

  /** Both are going to try. */
  ghost predicate BothTry(cfg: PlanConf, s: Plan, a: nat, b: nat) {
    && Before(s.pend.turns + s.pend.walk, a, b)
    && (a in s.pend.walk ==> MayTry(cfg, s, a)) && (b in s.pend.walk ==> MayTry(cfg, s, b))
  }

  lemma {:induction false} StillBefore(due: seq<nat>, a: nat, b: nat)
    requires Before(due, a, b) && due != [] && due[0] != a && NoDuplicates(due)
    ensures Before(due[1..], a, b) && due[0] != b
  {
    if b in due {
      var x, y :| 0 <= x < y < |due| && due[x] == a && due[y] == b;
      assert due[1..][x - 1] == a && due[1..][y - 1] == b;
    } else {
      assert forall y | 0 <= y < |due[1..]| :: due[1..][y] == due[y + 1];
    }
  }

  /** Those that may try keep their order in the batch, and the rest of the walk comes after it. */
  lemma {:induction false} BatchInOrder(walk: seq<nat>, leaves: nat -> bool, priority: nat -> int, idle: nat -> bool,
                                        may: nat -> bool, a: nat, b: nat)
    requires walk != [] && NoDuplicates(walk) && Before(walk, a, b) && may(a) && may(b) && !idle(b)
    ensures var looked := Looked(walk, leaves, priority);
      Before(Those(looked, idle) + Those(looked, may) + Left(walk, leaves, priority), a, b)
  {
    var looked, left := Looked(walk, leaves, priority), Left(walk, leaves, priority);
    LookedIsBatch(walk, leaves, priority);
    var n := |looked|;
    assert looked == walk[..n] && (left == [] || left == walk[n..]);
    ThoseOnly(walk[..n], idle);
    ThoseOnly(walk[..n], may);
    SplitInOrder(walk, n, Those(walk[..n], idle), left, may, a, b);
  }

  lemma {:induction false} SplitInOrder(walk: seq<nat>, n: nat, idlers: seq<nat>, left: seq<nat>, may: nat -> bool,
                                        a: nat, b: nat)
    requires NoDuplicates(walk) && n <= |walk| && (left == [] || left == walk[n..])
    requires Before(walk, a, b) && may(a) && may(b) && b !in idlers
    requires forall z :: z in Those(walk[..n], may) ==> z in walk[..n]
    ensures Before(idlers + Those(walk[..n], may) + left, a, b)
  {
    var triers := Those(walk[..n], may);
    if b in idlers + triers + left {
      assert b in walk[..n] || b in left;
      assert b in walk by { assert left == [] || forall k | 0 <= k < |left| :: left[k] == walk[n + k]; }
      var x, y :| 0 <= x < y < |walk| && walk[x] == a && walk[y] == b;
      InBatch(walk, n, left, y);
      PlacesInBatch(walk, n, idlers, triers, left, may, x, y);
    }
  }

  lemma {:induction false} InBatch(walk: seq<nat>, n: nat, left: seq<nat>, y: nat)
    requires NoDuplicates(walk) && n <= |walk| && y < |walk| && (walk[y] in walk[..n] || walk[y] in left)
    ensures y >= n ==> left != []
  {
    if walk[y] in walk[..n] {
      var z :| 0 <= z < n && walk[..n][z] == walk[y];
      assert walk[z] == walk[y];
    }
  }

  lemma {:induction false} PlacesInBatch(walk: seq<nat>, n: nat, idlers: seq<nat>, triers: seq<nat>, left: seq<nat>,
                                         may: nat -> bool, x: nat, y: nat)
    requires n <= |walk| && triers == Those(walk[..n], may) && (left == [] || left == walk[n..])
    requires x < y < |walk| && may(walk[x]) && may(walk[y]) && (y >= n ==> left != [])
    ensures Before(idlers + triers + left, walk[x], walk[y])
  {
    var all, m := idlers + triers + left, |idlers|;
    var p := if x < n then m + |Those(walk[..n][..x], may)| else m + |triers| + x - n;
    var q := if y < n then m + |Those(walk[..n][..y], may)| else m + |triers| + y - n;
    if x < n { ThoseInOrder(walk[..n], may, x); }
    if y < n {
      ThoseInOrder(walk[..n], may, y);
      assert walk[..n][..y][..x] == walk[..n][..x];
      ThoseInOrder(walk[..n][..y], may, x);
    }
    assert all[p] == walk[x] && all[q] == walk[y] && p < q;
  }

  // ----- along a pass -----

  lemma {:induction false} StillTries(cfg: PlanConf, s: Plan, t: Plan, i: nat)
    requires Sized(cfg, s) && Sized(cfg, t) && t.values == s.values && t.handles == s.handles
    requires forall j | 0 <= j < |cfg| :: SameBasis(s.nodes[j], t.nodes[j])
    requires MayTry(cfg, s, i)
    requires t.nodes[i].status == s.nodes[i].status || t.nodes[i] == ResourceAvailable(s.nodes[i])
    ensures MayTry(cfg, t, i)
  {
    SameDecision(cfg, s, t, i);
  }

  lemma {:induction false} AnnouncementKeepsOrder(cfg: PlanConf, s: Plan, j: nat, a: nat, b: nat)
    requires Inv(cfg, s) && Enabled(cfg, s, ResourceFreed(j)) && BothTry(cfg, s, a, b)
    ensures BothTry(cfg, Apply(cfg, s, ResourceFreed(j)), a, b)
  {
    var t := Apply(cfg, s, ResourceFreed(j));
    if a in s.pend.walk { StillTries(cfg, s, t, a); }
    if b in s.pend.walk { StillTries(cfg, s, t, b); }
  }

  lemma {:induction false} TurnKeepsOrder(cfg: PlanConf, s: Plan, j: nat, a: nat, b: nat)
    requires Inv(cfg, s) && QueueInv(cfg, s) && Enabled(cfg, s, Resolve(j)) && BothTry(cfg, s, a, b) && j != a
    ensures j != b && Sized(cfg, ResolveNode(cfg, s, j)) && BothTry(cfg, ResolveNode(cfg, s, j), a, b)
  {
    var t, due := ResolveNode(cfg, s, j), s.pend.turns + s.pend.walk;
    ResolveShape(cfg, s, j);
    ResolvedBasis(s.nodes[j], Decide(cfg, s, j), CanAcquire(cfg[j], s));
    TurnGoes(cfg, s, j);
    OnlyOneTurn(s.pend, j);
    assert due[0] == j && t.pend.turns + t.pend.walk == due[1..];
    StillBefore(due, a, b);
    if a in s.pend.walk { StillTries(cfg, s, t, a); }
    if b in s.pend.walk { StillTries(cfg, s, t, b); }
  }

  lemma {:induction false} BatchKeepsOrder(cfg: PlanConf, s: Plan, a: nat, b: nat)
    requires Inv(cfg, s) && QueueInv(cfg, s) && Enabled(cfg, s, NextBatch) && BothTry(cfg, s, a, b)
    ensures BothTry(cfg, Apply(cfg, s, NextBatch), a, b)
  {
    var t := Apply(cfg, s, NextBatch);
    BatchedInOrder(cfg, s, a, b);
    if a in t.pend.walk { StillTries(cfg, s, t, a); }
    if b in t.pend.walk { StillTries(cfg, s, t, b); }
  }

  lemma {:induction false} BatchedInOrder(cfg: PlanConf, s: Plan, a: nat, b: nat)
    requires ScheduleOk(s.pend) && s.pend.turns == [] && s.pend.walk != [] && BothTry(cfg, s, a, b)
    ensures Before(Batched(cfg, s).turns + Batched(cfg, s).walk, a, b)
    ensures forall i | i in Batched(cfg, s).walk :: i in s.pend.walk
  {
    var walk, t := s.pend.walk, Batched(cfg, s);
    assert s.pend.turns + walk == walk;
    BatchedOnce(walk, Leaving(cfg, s), Priorities(cfg), Trying(cfg, s, false), Trying(cfg, s, true));
    assert forall i | i in t.walk :: i in t.turns + t.walk;
    if b in t.turns + t.walk {
      assert b in walk && a in walk;
      BatchInOrder(walk, Leaving(cfg, s), Priorities(cfg), Trying(cfg, s, false), Trying(cfg, s, true), a, b);
    }
  }

  /** When b has its turn, a has had its own. */
  lemma {:induction false} FirstComeFirst(cfg: PlanConf, s: Plan, steps: seq<Step>, t: Plan, a: nat, b: nat, k: nat)
    requires Inv(cfg, s) && QueueInv(cfg, s) && IsRun(cfg, s, steps, t) && AllTurns(steps) && BothTry(cfg, s, a, b)
    requires a != b && k < |steps| && steps[k] == Resolve(b)
    ensures Resolve(a) in steps[..k]
    decreases |steps|
  {
    var step := steps[0];
    assert IsTurn(step) && step in steps;
    if step == Resolve(a) {
      assert k > 0 ==> step in steps[..k];
    } else {
      StepKeepsInv(cfg, s, step);
      StepKeepsQueue(cfg, s, step);
      match step {
        case ResourceFreed(j) => AnnouncementKeepsOrder(cfg, s, j, a, b);
        case Resolve(j) => TurnKeepsOrder(cfg, s, j, a, b);
        case NextBatch => BatchKeepsOrder(cfg, s, a, b);
      }
      FirstComeFirst(cfg, Apply(cfg, s, step), steps[1..], t, a, b, k - 1);
      assert steps[..k] == [step] + steps[1..][..k - 1];
    }
  }

  lemma {:induction false} PassBegins(cfg: PlanConf, s: Plan, x: nat, y: nat)
    requires Inv(cfg, s) && Enabled(cfg, s, EndCheck) && x < y < |s.pend.queue| && s.pend.turns == []
    requires MayTry(cfg, s, s.pend.queue[x]) && MayTry(cfg, s, s.pend.queue[y])
    ensures BothTry(cfg, Apply(cfg, s, EndCheck), s.pend.queue[x], s.pend.queue[y])
  {
    var u, queue := Apply(cfg, s, EndCheck), s.pend.queue;
    assert u.pend.turns + u.pend.walk == queue;
    StillTries(cfg, s, u, queue[x]);
    StillTries(cfg, s, u, queue[y]);
  }

  lemma {:induction false} AttemptsInOrder(cfg: PlanConf, s: Plan, steps: seq<Step>, t: Plan, x: nat, y: nat, k: nat)
    requires Inv(cfg, s) && QueueInv(cfg, s) && Enabled(cfg, s, EndCheck) && x < y < |s.pend.queue|
    requires IsRun(cfg, Apply(cfg, s, EndCheck), steps, t) && AllTurns(steps)
    requires MayTry(cfg, s, s.pend.queue[x]) && MayTry(cfg, s, s.pend.queue[y])
    requires k < |steps| && steps[k] == Resolve(s.pend.queue[y])
    ensures Resolve(s.pend.queue[x]) in steps[..k]
  {
    PassBegins(cfg, s, x, y);
    StepKeepsInv(cfg, s, EndCheck);
    StepKeepsQueue(cfg, s, EndCheck);
    FirstComeFirst(cfg, Apply(cfg, s, EndCheck), steps, t, s.pend.queue[x], s.pend.queue[y], k);
  }
}
