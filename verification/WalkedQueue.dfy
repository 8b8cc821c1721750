/** A queue kept in order of priority, and a walk over it that ends where an item is taken off:
    what src/utils/LinkedQueue.hh and a loop over its next pointers make of a sequence. */
module WalkedQueue {
  import opened Conditions

  /** After all items whose priority is not greater. */
  function Inserted<T>(queue: seq<T>, x: T, priority: T -> int): seq<T> {
    if queue == [] then [x]
    else if priority(x) < priority(queue[0]) then [x] + queue
    else [queue[0]] + Inserted(queue[1..], x, priority)
  }

  function Without<T(==)>(queue: seq<T>, x: T): seq<T> {
    if queue == [] then []
    else if queue[0] == x then queue[1..]
    else [queue[0]] + Without(queue[1..], x)
  }

  function Those<T>(items: seq<T>, p: T -> bool): seq<T> {
    if items == [] then []
    else (if p(items[0]) then [items[0]] else []) + Those(items[1..], p)
  }

  /** The items of the first priority that are looked at: an item that leaves the queue when it
      is looked at has no next item any more. */
  function Looked<T>(walk: seq<T>, leaves: T -> bool, priority: T -> int): seq<T> {
    if walk == [] then []
    else if !leaves(walk[0]) && |walk| > 1 && priority(walk[1]) == priority(walk[0])
    then [walk[0]] + Looked(walk[1..], leaves, priority)
    else [walk[0]]
  }

  /** Where the walk goes on with the next priority. */
  function Left<T>(walk: seq<T>, leaves: T -> bool, priority: T -> int): seq<T> {
    if walk == [] || leaves(walk[0]) then []
    else if |walk| > 1 && priority(walk[1]) == priority(walk[0]) then Left(walk[1..], leaves, priority)
    else walk[1..]
  }

  /** All that a walk over all priorities looks at. */
  function Reached<T>(walk: seq<T>, leaves: T -> bool): seq<T> {
    if walk == [] then []
    else if leaves(walk[0]) then [walk[0]]
    else [walk[0]] + Reached(walk[1..], leaves)
  }

  // ----- order -----

  ghost predicate InOrder<T>(queue: seq<T>, priority: T -> int) {
    forall a, b | 0 <= a < b < |queue| :: priority(queue[a]) <= priority(queue[b])
  }

  /** The new item comes after all of its priority and better, and before all others, which
      keep their order. */
  lemma {:induction false} InsertedInOrder<T>(queue: seq<T>, x: T, priority: T -> int) returns (at: nat)
    requires InOrder(queue, priority)
    ensures at <= |queue| && Inserted(queue, x, priority) == queue[..at] + [x] + queue[at..]
    ensures forall a | 0 <= a < at :: priority(queue[a]) <= priority(x)
    ensures forall b | at <= b < |queue| :: priority(x) < priority(queue[b])
    ensures InOrder(Inserted(queue, x, priority), priority)
  {
    if queue == [] || priority(x) < priority(queue[0]) {
      at := 0;
    } else {
      at := InsertedInOrder(queue[1..], x, priority);
      at := at + 1;
    }
  }

  lemma {:induction false} InsertedOnce<T>(queue: seq<T>, x: T, priority: T -> int)
    requires InOrder(queue, priority) && NoDuplicates(queue) && x !in queue
    ensures NoDuplicates(Inserted(queue, x, priority))
    ensures forall y :: y in Inserted(queue, x, priority) <==> y == x || y in queue
  {
    var at := InsertedInOrder(queue, x, priority);
    OnceMore(queue, x, at);
  }

  lemma OnceMore<T>(queue: seq<T>, x: T, at: nat)
    requires at <= |queue| && NoDuplicates(queue) && x !in queue
    ensures var all := queue[..at] + [x] + queue[at..];
      NoDuplicates(all) && forall y :: y in all <==> y == x || y in queue
  {
    var all := queue[..at] + [x] + queue[at..];
    forall i, j | 0 <= i < j < |all| ensures all[i] != all[j] {
      assert all[i] == if i < at then queue[i] else if i == at then x else queue[i - 1];
      assert all[j] == if j < at then queue[j] else if j == at then x else queue[j - 1];
    }
    assert queue == queue[..at] + queue[at..];
  }

  lemma OnceLess<T>(queue: seq<T>, at: nat)
    requires at < |queue| && NoDuplicates(queue)
    ensures var rest := queue[..at] + queue[at + 1..];
      && |rest| == |queue| - 1 && NoDuplicates(rest)
      && forall j | 0 <= j < |rest| :: rest[j] == if j < at then queue[j] else queue[j + 1]
  {
    var rest := queue[..at] + queue[at + 1..];
    forall i, j | 0 <= i < j < |rest| ensures rest[i] != rest[j] {
      assert rest[i] == queue[if i < at then i else i + 1] && rest[j] == queue[if j < at then j else j + 1];
    }
  }

  lemma {:induction false} WithoutKeeps<T>(queue: seq<T>, x: T, priority: T -> int)
    requires InOrder(queue, priority) && NoDuplicates(queue)
    ensures InOrder(Without(queue, x), priority) && NoDuplicates(Without(queue, x))
    ensures forall y :: y in Without(queue, x) <==> y != x && y in queue
  {
    var at := WithoutIsPart(queue, x);
    var rest := Without(queue, x);
    forall y ensures y in rest <==> y != x && y in queue {
      if y in queue && y != x {
        var k :| 0 <= k < |queue| && queue[k] == y;
        assert rest[if k < at then k else k - 1] == y;
      }
    }
  }

  lemma {:induction false} WithoutIsPart<T>(queue: seq<T>, x: T) returns (at: nat)
    ensures at <= |queue| && (at < |queue| ==> queue[at] == x) && (at == |queue| ==> x !in queue)
    ensures |Without(queue, x)| == if at < |queue| then |queue| - 1 else |queue|
    ensures forall k | 0 <= k < |Without(queue, x)| :: Without(queue, x)[k] == queue[if k < at then k else k + 1]
  {
    if queue == [] || queue[0] == x {
      at := 0;
    } else {
      at := WithoutIsPart(queue[1..], x);
      at := at + 1;
    }
  }

  // ----- the walk -----

  /** What is looked at is where the walk starts; where it goes on, nothing has been skipped. */
  lemma {:induction false} LookedThenLeft<T>(walk: seq<T>, leaves: T -> bool, priority: T -> int)
    ensures Looked(walk, leaves, priority) <= walk
    ensures Left(walk, leaves, priority) == [] || Looked(walk, leaves, priority) + Left(walk, leaves, priority) == walk
    ensures walk != [] ==> |Left(walk, leaves, priority)| < |walk|
    ensures Reached(walk, leaves) == Looked(walk, leaves, priority) + Reached(Left(walk, leaves, priority), leaves)
  {
    if walk != [] {
      LookedThenLeft(walk[1..], leaves, priority);
      assert walk == [walk[0]] + walk[1..];
    }
  }

  /** What is looked at together is all of one priority, only the last of it can have left the queue,
      and it is followed by another priority, by the end of the queue, or, where an item left, by nothing. */
  lemma {:induction false} LookedIsBatch<T>(walk: seq<T>, leaves: T -> bool, priority: T -> int)
    requires walk != []
    ensures var looked := Looked(walk, leaves, priority);
      && looked != [] && looked <= walk
      && (forall a | 0 <= a < |looked| :: priority(looked[a]) == priority(walk[0]))
      && (forall a | 0 <= a < |looked| - 1 :: !leaves(looked[a]))
      && (leaves(looked[|looked| - 1]) || |looked| == |walk| || priority(walk[|looked|]) != priority(walk[0]))
      && Left(walk, leaves, priority) == if leaves(looked[|looked| - 1]) then [] else walk[|looked|..]
    decreases |walk|
  {
    if !leaves(walk[0]) && |walk| > 1 && priority(walk[1]) == priority(walk[0]) {
      LookedIsBatch(walk[1..], leaves, priority);
    }
  }

  /** An item is looked at exactly if none before it leaves the queue. */
  lemma {:induction false} ReachedExactly<T>(walk: seq<T>, leaves: T -> bool, k: nat)
    requires NoDuplicates(walk) && k < |walk|
    ensures walk[k] in Reached(walk, leaves) <==> forall j | 0 <= j < k :: !leaves(walk[j])
  {
    if !leaves(walk[0]) && k > 0 {
      ReachedExactly(walk[1..], leaves, k - 1);
    } else if k > 0 {
      assert walk[k] != walk[0];
    }
  }

  lemma {:induction false} ReachedPart<T>(walk: seq<T>, leaves: T -> bool)
    ensures Reached(walk, leaves) <= walk
  {
    if walk != [] { ReachedPart(walk[1..], leaves); }
  }

  /** Which items leave is all that matters. */
  lemma {:induction false} SameReached<T>(walk: seq<T>, leaves: T -> bool, also: T -> bool)
    requires forall x | x in walk :: leaves(x) == also(x)
    ensures Reached(walk, leaves) == Reached(walk, also)
  {
    if walk != [] { SameReached(walk[1..], leaves, also); }
  }

  lemma {:induction false} ThoseOnly<T(!new)>(items: seq<T>, p: T -> bool)
    ensures forall x :: x in Those(items, p) <==> x in items && p(x)
    ensures NoDuplicates(items) ==> NoDuplicates(Those(items, p))
  {
    if items != [] { ThoseOnly(items[1..], p); }
  }

  lemma {:induction false} ThoseAndOne<T>(items: seq<T>, x: T, p: T -> bool)
    ensures Those(items + [x], p) == Those(items, p) + if p(x) then [x] else []
    decreases |items|
  {
    if items == [] {
      assert [] + [x] == [x] && [x][1..] == [];
    } else {
      var head, rest := if p(items[0]) then [items[0]] else [], Those(items[1..], p);
      ThoseAndOne(items[1..], x, p);
      assert (items + [x])[1..] == items[1..] + [x];
      assert Those(items + [x], p) == head + (rest + if p(x) then [x] else []);
    }
  }

  /** Picking keeps the order: the item picked at place k comes from the place that k items are
      picked before. */
  lemma {:induction false} ThoseInOrder<T>(items: seq<T>, p: T -> bool, i: nat)
    requires i < |items| && p(items[i])
    ensures |Those(items[..i], p)| < |Those(items, p)|
    ensures Those(items, p)[|Those(items[..i], p)|] == items[i] && Those(items[..i], p) <= Those(items, p)
    decreases i
  {
    if i > 0 {
      assert items[..i][1..] == items[1..][..i - 1];
      ThoseInOrder(items[1..], p, i - 1);
    }
  }

  /** Sorting into two keeps every item once. */
  lemma {:induction false} SortedOut<T(!new)>(items: seq<T>, p: T -> bool, q: T -> bool)
    requires NoDuplicates(items) && forall x | x in items :: p(x) == !q(x)
    ensures NoDuplicates(Those(items, p) + Those(items, q))
    ensures forall x :: x in Those(items, p) + Those(items, q) <==> x in items
  {
    ThoseOnly(items, p);
    ThoseOnly(items, q);
    DisjointParts(Those(items, p), Those(items, q));
  }

  lemma DisjointParts<T(!new)>(a: seq<T>, b: seq<T>)
    requires NoDuplicates(a) && NoDuplicates(b) && forall x | x in a :: x !in b
    ensures NoDuplicates(a + b) && forall x :: x in a + b <==> x in a || x in b
  {
    forall i, j | 0 <= i < j < |a + b| ensures (a + b)[i] != (a + b)[j] {
      assert i < |a| ==> (a + b)[i] == a[i] && a[i] in a;
      assert j >= |a| ==> (a + b)[j] == b[j - |a|];
    }
  }

  /** The batch that is looked at, sorted out, and what is left have each item of the walk at
      most once. */
  lemma {:induction false} BatchedOnce<T(!new)>(walk: seq<T>, leaves: T -> bool, priority: T -> int,
                                                p: T -> bool, q: T -> bool)
    requires NoDuplicates(walk) && forall x | x in walk :: p(x) == !q(x)
    ensures var looked, left := Looked(walk, leaves, priority), Left(walk, leaves, priority);
      var turns := Those(looked, p) + Those(looked, q);
      && NoDuplicates(turns + left) && (forall x | x in turns + left :: x in walk)
      && forall x :: x in turns <==> x in looked
  {
    var looked, left := Looked(walk, leaves, priority), Left(walk, leaves, priority);
    LookedThenLeft(walk, leaves, priority);
    PartsOf(walk, looked, left);
    SortedOut(looked, p, q);
    DisjointParts(Those(looked, p) + Those(looked, q), left);
  }

  lemma PartsOf<T(!new)>(walk: seq<T>, looked: seq<T>, left: seq<T>)
    requires NoDuplicates(walk) && looked <= walk && (left == [] || looked + left == walk)
    ensures NoDuplicates(looked) && NoDuplicates(left)
    ensures forall x | x in looked :: x in walk && x !in left
    ensures forall x | x in left :: x in walk
  {
    forall x | x in looked ensures x in walk && x !in left {
      var i :| 0 <= i < |looked| && looked[i] == x;
      assert walk[i] == x;
      assert forall j | 0 <= j < |left| :: left[j] == walk[|looked| + j];
    }
    assert left != [] ==> forall j | 0 <= j < |left| :: left[j] == walk[|looked| + j];
  }
}
