/** The executive's queues on the heap: nodes linked through one next pointer each, which all
    queues share, and the loop that walks the pending queue while looking at a node may unlink it. */
module LinkedQueue {
  import opened Conditions
  import opened WalkedQueue

  class Link {
    var next: Link?
    const priority: int

    constructor (priority: int)
      ensures next == null && this.priority == priority
    {
      next := null;
      this.priority := priority;
    }
  }

  const PriorityOf: Link -> int := (l: Link) => l.priority

  function At(items: seq<Link>, i: nat): Link? {
    if i < |items| then items[i] else null
  }

  /** The items are linked in their order, each once. */
  ghost predicate Chained(items: seq<Link>)
    reads items
  {
    && NoDuplicates(items)
    && (items != [] ==> items[|items| - 1].next == null)
    && forall i, j | 0 <= i < |items| && j == i + 1 && j < |items| :: items[i].next == items[j]
  }

  class Queue {
    var head: Link?
    var tail: Link?
    var count: nat
    ghost var items: seq<Link>

    constructor ()
      ensures Valid() && items == []
    {
      head, tail, count, items := null, null, 0, [];
    }

    ghost predicate Valid()
      reads this, items
    {
      && head == At(items, 0) && count == |items| && Chained(items)
      && tail == if items == [] then null else items[|items| - 1]
    }

    /** At the end; the item's next pointer is null already. */
    method Push(item: Link)
      requires Valid() && item !in items && item.next == null
      modifies this, items`next
      ensures Valid() && items == old(items) + [item] && item.next == null
    {
      if head == null {
        head := item;
      } else {
        tail.next := item;
      }
      tail, count := item, count + 1;
      items := items + [item];
    }

    /** The head goes; its next pointer is cleared. */
    method Pop()
      requires Valid()
      modifies this, items`next
      ensures Valid() && items == if old(items) == [] then [] else old(items)[1..]
      ensures old(items) != [] ==> old(items)[0].next == null
    {
      if head == null {
        return;
      }
      var first := head;
      if head == tail {
        head, tail := null, null;
      } else {
        head := head.next;
      }
      first.next := null;
      count, items := count - 1, items[1..];
    }

    /** The given item goes, if it is there; its own next pointer is cleared. */
    method Remove(item: Link)
      requires Valid()
      modifies this, items`next
      ensures Valid() && items == Without(old(items), item)
      ensures item in old(items) ==> item.next == null
    {
      var prev: Link?, cur := null, head;
      ghost var i := 0;
      while cur != null && cur != item
        invariant PlaceOf(i, prev, cur) && forall j | 0 <= j < i :: items[j] != item
        decreases |items| - i
      {
        prev, cur, i := cur, cur.next, i + 1;
      }
      WithoutAt(items, item, i);
      if cur != null {
        Unlink(prev, cur, i);
      }
    }

    /** cur is the i-th item, or null at the end; prev is the one before it. */
    ghost predicate PlaceOf(i: nat, prev: Link?, cur: Link?)
      reads this, items
    {
      Valid() && i <= |items| && cur == At(items, i) && prev == if i == 0 then null else items[i - 1]
    }

    method Unlink(prev: Link?, cur: Link, ghost i: nat)
      requires PlaceOf(i, prev, cur)
      modifies this, items`next
      ensures Valid() && items == old(items)[..i] + old(items)[i + 1..] && cur.next == null
    {
      if prev == null {
        head := cur.next;
      } else {
        prev.next := cur.next;
      }
      if cur == tail {
        tail := prev;
      }
      cur.next := null;
      OnceLess(items, i);
      count, items := count - 1, items[..i] + items[i + 1..];
      assert forall j | 0 <= j < |items| :: items[j] == old(items)[if j < i then j else j + 1];
      forall j, q | 0 <= j < |items| && q == j + 1 && q < |items| ensures items[j].next == items[q] {
        assert old(items)[if j < i then j else j + 1] != cur;
      }
    }

    /** After all items whose priority is not greater. */
    method Insert(item: Link)
      requires Valid() && item !in items && item.next == null
      modifies this, items`next, item`next
      ensures Valid() && items == Inserted(old(items), item, PriorityOf)
    {
      if head == null {
        Push(item);
        return;
      }
      var prev: Link?, cur := null, head;
      ghost var i := 0;
      while cur != null && cur.priority <= item.priority
        invariant PlaceOf(i, prev, cur) && forall j | 0 <= j < i :: items[j].priority <= item.priority
        decreases |items| - i
      {
        prev, cur, i := cur, cur.next, i + 1;
      }
      InsertedAt(items, item, i);
      if cur == null {
        Push(item);
      } else {
        LinkIn(item, prev, cur, i);
      }
    }

    method LinkIn(item: Link, prev: Link?, cur: Link, ghost i: nat)
      requires PlaceOf(i, prev, cur) && item !in items && item.next == null
      modifies this, items`next, item`next
      ensures Valid() && items == old(items)[..i] + [item] + old(items)[i..]
    {
      OnceMore(items, item, i);
      item.next := cur;
      if prev == null {
        head := item;
      } else {
        prev.next := item;
      }
      count, items := count + 1, items[..i] + [item] + items[i..];
      assert forall j | 0 <= j < |items| ::
        items[j] == if j < i then old(items)[j] else if j == i then item else old(items)[j - 1];
    }
  }

  lemma {:induction false} WithoutAt(items: seq<Link>, x: Link, i: nat)
    requires i <= |items| && (i < |items| ==> items[i] == x) && forall j | 0 <= j < i :: items[j] != x
    ensures Without(items, x) == if i < |items| then items[..i] + items[i + 1..] else items
    decreases i
  {
    if i > 0 { WithoutAt(items[1..], x, i - 1); }
  }

  lemma {:induction false} InsertedAt(items: seq<Link>, x: Link, i: nat)
    requires i <= |items| && forall j | 0 <= j < i :: items[j].priority <= x.priority
    requires i < |items| ==> x.priority < items[i].priority
    ensures Inserted(items, x, PriorityOf) == items[..i] + [x] + items[i..]
    decreases i
  {
    if i > 0 { InsertedAt(items[1..], x, i - 1); }
  }

  // ----- the walk -----

  /** What looking at a pending node comes to: it stays, and may try its resources or not; or it is
      dropped, or queued for another move. */
  datatype Fate = Ineligible | Eligible | Dropped | Requeued

  function Leaving(fate: Link -> Fate): Link -> bool {
    (l: Link) => fate(l) == Dropped || fate(l) == Requeued
  }

  function Trying(fate: Link -> Fate): Link -> bool {
    (l: Link) => fate(l) == Eligible
  }

  /** The queue after a walk that has looked at these: only the last can have left it. */
  function AfterWalk(items: seq<Link>, looked: seq<Link>, fate: Link -> Fate): seq<Link> {
    if looked != [] && Leaving(fate)(looked[|looked| - 1]) then Without(items, looked[|looked| - 1]) else items
  }

  function Requeueing(looked: seq<Link>, fate: Link -> Fate): seq<Link> {
    if looked != [] && fate(looked[|looked| - 1]) == Requeued then [looked[|looked| - 1]] else []
  }

  lemma {:induction false} LookOn(walk: seq<Link>, j: nat, leaves: Link -> bool)
    requires j + 1 < |walk| && !leaves(walk[j]) && walk[j + 1].priority == walk[j].priority
    ensures Looked(walk[j..], leaves, PriorityOf) == [walk[j]] + Looked(walk[j + 1..], leaves, PriorityOf)
    ensures Left(walk[j..], leaves, PriorityOf) == Left(walk[j + 1..], leaves, PriorityOf)
  {
    assert walk[j..][1..] == walk[j + 1..];
  }

  lemma {:induction false} LookEnds(walk: seq<Link>, j: nat, leaves: Link -> bool)
    requires j < |walk|
    requires leaves(walk[j]) || j + 1 == |walk| || walk[j + 1].priority != walk[j].priority
    ensures Looked(walk[j..], leaves, PriorityOf) == [walk[j]]
    ensures Left(walk[j..], leaves, PriorityOf) == if leaves(walk[j]) then [] else walk[j + 1..]
  {
    assert walk[j..][1..] == walk[j + 1..];
  }

  /** Taking an item off one queue leaves the other as it was. */
  method Take(pending: Queue, changes: Queue, temp: Link)
    requires pending.Valid() && changes.Valid() && pending != changes && temp in pending.items
    requires forall l | l in changes.items :: l !in pending.items
    modifies pending, pending.items`next
    ensures pending.Valid() && changes.Valid()
    ensures temp.next == null && pending.items == Without(old(pending.items), temp)
  {
    pending.Remove(temp);
    assert forall l | l in changes.items :: l.next == old(l.next);
  }

  method Give(pending: Queue, changes: Queue, temp: Link)
    requires pending.Valid() && changes.Valid() && pending != changes && temp.next == null && temp !in changes.items
    requires forall l | l in pending.items :: l !in changes.items
    modifies changes, changes.items`next
    ensures pending.Valid() && changes.Valid() && temp.next == null
    ensures pending.items == old(pending.items) && changes.items == old(changes.items) + [temp]
  {
    changes.Push(temp);
    assert forall l | l in pending.items :: l.next == old(l.next);
  }

  /** One node is looked at; next is what its next pointer then leads to. */
  method LookAt(pending: Queue, changes: Queue, temp: Link, ghost at: nat, fate: Fate) returns (next: Link?)
    requires pending.Valid() && changes.Valid() && pending != changes
    requires forall l | l in changes.items :: l !in pending.items
    requires at < |pending.items| && pending.items[at] == temp
    modifies pending, changes, pending.items`next, changes.items`next
    ensures pending.Valid() && changes.Valid()
    ensures var leaves := fate == Dropped || fate == Requeued;
      && next == (if leaves then null else At(old(pending.items), at + 1))
      && pending.items == if leaves then Without(old(pending.items), temp) else old(pending.items)
    ensures changes.items == old(changes.items) + if fate == Requeued then [temp] else []
  {
    if fate == Dropped || fate == Requeued {
      WithoutOnly(pending.items, temp);
      Take(pending, changes, temp);
    }
    if fate == Requeued {
      Give(pending, changes, temp);
    }
    next := temp.next;
  }

  lemma {:induction false} WithoutOnly(items: seq<Link>, x: Link)
    requires NoDuplicates(items)
    ensures forall l | l in Without(items, x) :: l in items && l != x
  {
    var at := WithoutIsPart(items, x);
  }

  /** The walk has come to its j-th node; those before it that may try are noted. */
  ghost predicate UpTo(walk: seq<Link>, j: nat, fate: Link -> Fate, eligible: seq<Link>) {
    var leaves := Leaving(fate);
    && j < |walk| && eligible == Those(walk[..j], Trying(fate))
    && Looked(walk, leaves, PriorityOf) == walk[..j] + Looked(walk[j..], leaves, PriorityOf)
    && Left(walk, leaves, PriorityOf) == Left(walk[j..], leaves, PriorityOf)
  }

  function Noted(eligible: seq<Link>, l: Link, fate: Fate): seq<Link> {
    if fate == Eligible then eligible + [l] else eligible
  }

  lemma {:induction false} NextNode(walk: seq<Link>, j: nat, fate: Link -> Fate, eligible: seq<Link>, next: Link)
    requires UpTo(walk, j, fate, eligible) && next.priority == walk[j].priority
    requires next == if Leaving(fate)(walk[j]) then null else At(walk, j + 1)
    ensures UpTo(walk, j + 1, fate, Noted(eligible, walk[j], fate(walk[j])))
    ensures !Leaving(fate)(walk[j]) && walk[j + 1] == next
  {
    LookOn(walk, j, Leaving(fate));
    assert walk[..j + 1] == walk[..j] + [walk[j]];
    ThoseAndOne(walk[..j], walk[j], Trying(fate));
  }

  /** What a walk comes to: the nodes that may try, the two queues, and where it goes on. */
  ghost predicate Walked(walk: seq<Link>, fate: Link -> Fate, eligible: seq<Link>, next: Link?,
                         items: seq<Link>, now: seq<Link>, requeued: seq<Link>) {
    var looked := Looked(walk, Leaving(fate), PriorityOf);
    && next == At(Left(walk, Leaving(fate), PriorityOf), 0)
    && eligible == Those(looked, Trying(fate))
    && now == AfterWalk(items, looked, fate) && requeued == Requeueing(looked, fate)
  }

  lemma {:induction false} WalkEnds(walk: seq<Link>, j: nat, fate: Link -> Fate, eligible: seq<Link>, next: Link?,
                                    items: seq<Link>, now: seq<Link>, requeued: seq<Link>)
    requires UpTo(walk, j, fate, eligible)
    requires next == null || next.priority != walk[j].priority
    requires next == if Leaving(fate)(walk[j]) then null else At(walk, j + 1)
    requires now == if Leaving(fate)(walk[j]) then Without(items, walk[j]) else items
    requires requeued == if fate(walk[j]) == Requeued then [walk[j]] else []
    ensures Walked(walk, fate, Noted(eligible, walk[j], fate(walk[j])), next, items, now, requeued)
  {
    LookEnds(walk, j, Leaving(fate));
    assert walk[..j + 1] == walk[..j] + [walk[j]] == Looked(walk, Leaving(fate), PriorityOf);
    ThoseAndOne(walk[..j], walk[j], Trying(fate));
  }

  /** What the walk means for each node: those of the first priority up to one that leaves are looked
      at; of these the eligible may try, in their order; the one that leaves is off the queue, in
      the other queue if it has another move to make; all else stays. */
  lemma {:induction false} WalkOutcome(walk: seq<Link>, fate: Link -> Fate, eligible: seq<Link>, next: Link?,
                                       items: seq<Link>, now: seq<Link>, requeued: seq<Link>) returns (n: nat)
    requires walk != [] && NoDuplicates(items) && (forall l | l in walk :: l in items)
    requires Walked(walk, fate, eligible, next, items, now, requeued)
    ensures 0 < n <= |walk| && forall a | 0 <= a < n :: walk[a].priority == walk[0].priority
    ensures forall a | 0 <= a < n - 1 :: fate(walk[a]) == Eligible || fate(walk[a]) == Ineligible
    ensures var last := fate(walk[n - 1]);
      && (if last == Dropped || last == Requeued then next == null
          else n == |walk| || walk[n].priority != walk[0].priority)
      && (last == Eligible || last == Ineligible ==>
            now == items && requeued == [] && next == if n < |walk| then walk[n] else null)
      && (last == Dropped ==> requeued == []) && (last == Requeued ==> requeued == [walk[n - 1]])
      && (last == Dropped || last == Requeued ==>
            now == Without(items, walk[n - 1]) && walk[n - 1] !in now)
    ensures eligible == Those(walk[..n], Trying(fate))
  {
    LookedIsBatch(walk, Leaving(fate), PriorityOf);
    n := |Looked(walk, Leaving(fate), PriorityOf)|;
    assert walk[..n] == Looked(walk, Leaving(fate), PriorityOf);
    WithoutOnly(items, walk[n - 1]);
  }

  /** The j-th node of the walk, which started at the k-th of the queue, is looked at. */
  method LookInWalk(pending: Queue, changes: Queue, temp: Link, ghost walk: seq<Link>, ghost j: nat, ghost k: nat,
                    ghost fate: Link -> Fate, f: Fate)
      returns (next: Link?)
    requires pending.Valid() && changes.Valid() && pending != changes
    requires forall l | l in changes.items :: l !in pending.items
    requires k <= |pending.items| && walk == pending.items[k..] && j < |walk| && walk[j] == temp && f == fate(temp)
    modifies pending, changes, pending.items`next, changes.items`next
    ensures pending.Valid() && changes.Valid()
    ensures next == if Leaving(fate)(temp) then null else At(walk, j + 1)
    ensures pending.items == if Leaving(fate)(temp) then Without(old(pending.items), temp) else old(pending.items)
    ensures changes.items == old(changes.items) + if f == Requeued then [temp] else []
  {
    assert At(pending.items, k + j + 1) == At(walk, j + 1);
    next := LookAt(pending, changes, temp, k + j, f);
  }

  /** One turn of the walk's loop: the j-th node is looked at, and the walk goes on or is over. */
  method WalkOn(pending: Queue, changes: Queue, temp: Link, ghost walk: seq<Link>, ghost j: nat, ghost k: nat,
                fate: Link -> Fate, eligible0: seq<Link>)
      returns (eligible: seq<Link>, next: Link?, ghost requeued: seq<Link>)
    requires pending.Valid() && changes.Valid() && pending != changes
    requires forall l | l in changes.items :: l !in pending.items
    requires k <= |pending.items| && walk == pending.items[k..]
    requires UpTo(walk, j, fate, eligible0) && walk[j] == temp
    modifies pending, changes, pending.items`next, changes.items`next
    ensures pending.Valid() && changes.Valid() && changes.items == old(changes.items) + requeued
    ensures if next != null && next.priority == temp.priority
            then UpTo(walk, j + 1, fate, eligible) && walk[j + 1] == next
                 && pending.items == old(pending.items) && requeued == []
            else Walked(walk, fate, eligible, next, old(pending.items), pending.items, requeued)
  {
    var f := fate(temp);
    next := LookInWalk(pending, changes, temp, walk, j, k, fate, f);
    requeued := if f == Requeued then [temp] else [];
    eligible := Noted(eligible0, temp, f);
    if next != null && next.priority == temp.priority {
      NextNode(walk, j, fate, eligible0, next);
    } else {
      WalkEnds(walk, j, fate, eligible0, next, old(pending.items), pending.items, requeued);
    }
  }

  /** The first loop of a priority's turn: from the k-th node of the pending queue, those of its
      priority are looked at one after the other, by way of their next pointers.  Where one leaves
      the queue its next pointer is null, and the walk is over for all priorities. */
  method Gather(pending: Queue, changes: Queue, start: Link, ghost k: nat, fate: Link -> Fate)
      returns (eligible: seq<Link>, next: Link?, ghost requeued: seq<Link>)
    requires pending.Valid() && changes.Valid() && pending != changes
    requires forall l | l in changes.items :: l !in pending.items
    requires k < |pending.items| && pending.items[k] == start
    modifies pending, changes, pending.items`next, changes.items`next
    ensures pending.Valid() && changes.Valid() && changes.items == old(changes.items) + requeued
    ensures Walked(old(pending.items)[k..], fate, eligible, next, old(pending.items), pending.items, requeued)
  {
    eligible := [];
    var temp: Link := start;
    ghost var walk := pending.items[k..];
    ghost var j := 0;
    assert walk[..0] == [] && walk[0..] == walk;
    while true
      invariant pending.Valid() && changes.Valid() && pending.items == old(pending.items)
      invariant changes.items == old(changes.items)
      invariant UpTo(walk, j, fate, eligible) && walk[j] == temp && temp.priority == start.priority
      decreases |walk| - j
    {
      eligible, next, requeued := WalkOn(pending, changes, temp, walk, j, k, fate, eligible);
      if next == null || next.priority != start.priority {
        return;
      }
      temp, j := next, j + 1;
    }
  }
}
