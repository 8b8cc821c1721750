/** The application's input queue: entries on the heap, linked into a queue with a tail
    pointer or into a free list, or in a client's hands. */
module InputQueue {

  datatype EntryKind =
    | Lookup | CommandAck | CommandReturn | CommandAbort | UpdateAck
    | AddPlan | ReceiveMessage | MessageQueueEmpty | AcceptMessage | ReleaseMessageHandle

  /** What an entry carries: a sequence mark, a message for the executive, or nothing valid. */
  datatype Item = Blank | Mark(sequence: nat) | Message(kind: EntryKind, content: int)

  class QueueEntry {
    var next: QueueEntry?
    var item: Item

    constructor ()
      ensures next == null && item == Blank
    {
      next, item := null, Blank;
    }

    method Reset()
      modifies this
      ensures next == null && item == Blank
    {
      next, item := null, Blank;
    }
  }

  /** The list runs through the next pointers and ends with null; being a sequence without
      repetitions, it has no cycle. */
  ghost predicate Linked(list: seq<QueueEntry>)
    reads list
  {
    && (list != [] ==> list[|list| - 1].next == null)
    && (forall i, j | 0 <= i < |list| && j == i + 1 && j < |list| :: list[i].next == list[j])
    && (forall i, j | 0 <= i < j < |list| :: list[i] != list[j])
  }

  function Head(list: seq<QueueEntry>): QueueEntry? {
    if list == [] then null else list[0]
  }

  lemma LinkedTail(list: seq<QueueEntry>)
    requires Linked(list) && list != []
    ensures Linked(list[1..]) && list[0].next == Head(list[1..]) && list[0] !in list[1..]
  {
  }

  lemma LinkedPush(e: QueueEntry, list: seq<QueueEntry>)
    requires Linked(list) && e !in list && e.next == Head(list)
    ensures Linked([e] + list)
  {
  }

  /** What the entries of the list hold. */
  ghost predicate Carries(list: seq<QueueEntry>, contents: seq<Item>)
    reads list
  {
    |contents| == |list| && forall i | 0 <= i < |list| :: contents[i] == list[i].item
  }

  lemma TailCarries(list: seq<QueueEntry>, contents: seq<Item>)
    requires Carries(list, contents) && list != []
    ensures Carries(list[1..], contents[1..]) && contents == [list[0].item] + contents[1..]
  {
  }

  lemma PushKeepsEntries(e: QueueEntry, list: seq<QueueEntry>, rest: set<QueueEntry>)
    requires e in rest
    ensures (set x | x in [e] + list) + (rest - {e}) == (set x | x in list) + rest
  {
  }

  class SimpleInputQueue {
    var queueGet: QueueEntry?
    var queuePut: QueueEntry?
    var freeList: QueueEntry?

    /** What the pointers lead to, what the queued entries carry, and the entries that
        clients hold. */
    ghost var queue: seq<QueueEntry>
    ghost var contents: seq<Item>
    ghost var free: seq<QueueEntry>
    ghost var clients: set<QueueEntry>

    constructor ()
      ensures Valid() && queue == free == [] && clients == {} && contents == []
    {
      queueGet, queuePut, freeList := null, null, null;
      queue, contents, free, clients := [], [], [], {};
    }

    ghost function Entries(): set<QueueEntry>
      reads this
    {
      (set e | e in queue) + ((set e | e in free) + clients)
    }

    /** Each entry is in exactly one of the queue, the free list, and the clients' hands, and
        neither list has a cycle. */
    ghost predicate Partition()
      reads this, Entries()
    {
      && queueGet == Head(queue) && freeList == Head(free)
      && Linked(queue) && Linked(free)
      && (forall e | e in queue :: e !in free && e !in clients)
      && (forall e | e in free :: e !in clients)
      && Carries(queue, contents)
    }

    /** The tail pointer is the last queued entry. */
    ghost predicate Valid()
      reads this, Entries()
    {
      Partition() && queuePut == if queue == [] then null else queue[|queue| - 1]
    }

    predicate IsEmpty()
      reads this
    {
      queueGet == null
    }

    method Allocate() returns (entry: QueueEntry)
      requires Valid()
      modifies this`freeList, this`free, this`clients
      ensures Valid() && clients == old(clients) + {entry} && entry !in old(clients)
      ensures if old(free) == [] then fresh(entry) && free == [] else entry == old(free[0]) && free == old(free[1..])
    {
      if freeList != null {
        LinkedTail(free);
        entry := freeList;
        freeList := entry.next;
        free := free[1..];
      } else {
        entry := new QueueEntry();
      }
      clients := clients + {entry};
    }

    method Release(entry: QueueEntry)
      requires Partition() && entry in clients
      modifies this`freeList, this`free, this`clients, entry
      ensures Partition() && (old(Valid()) ==> Valid())
      ensures free == [entry] + old(free) && clients == old(clients) - {entry}
      ensures entry.item == Blank && Entries() == old(Entries())
    {
      entry.Reset();
      entry.next := freeList;
      freeList := entry;
      LinkedPush(entry, free);
      PushKeepsEntries(entry, free, clients);
      free, clients := [entry] + free, clients - {entry};
    }

    method Put(entry: QueueEntry)
      requires Valid() && entry in clients
      modifies this`queueGet, this`queuePut, this`queue, this`contents, this`clients, entry`next, queue`next
      ensures Valid() && queue == old(queue) + [entry] && clients == old(clients) - {entry}
      ensures contents == old(contents) + [entry.item]
    {
      assert forall k | 0 <= k < |free| :: free[k] !in queue && free[k] != entry;
      entry.next := null;
      if queuePut != null {
        queuePut.next := entry;
      }
      queuePut := entry;
      if queueGet == null {
        queueGet := entry;
      }
      ghost var was := queue;
      queue, contents, clients := queue + [entry], contents + [entry.item], clients - {entry};
      forall i, j | 0 <= i < |queue| && j == i + 1 && j < |queue| ensures queue[i].next == queue[j] {
        if j < |was| {
          assert old(was[i].next) == was[j];
        }
      }
    }

    /** The head comes off the queue, whatever the tail pointer still says. */
    method TakeFirst() returns (entry: QueueEntry)
      requires Partition() && queueGet != null
      modifies this`queueGet, this`queue, this`contents, this`clients
      ensures Partition() && entry == old(queue[0]) && queue == old(queue[1..])
      ensures clients == old(clients) + {entry} && entry !in old(clients)
      ensures old(contents) == [entry.item] + contents
      ensures Entries() == old(Entries()) && forall e :: e in old(queue) <==> e == entry || e in queue
    {
      LinkedTail(queue);
      TailCarries(queue, contents);
      entry := queueGet;
      queueGet := entry.next;
      queue, contents, clients := queue[1..], contents[1..], clients + {entry};
    }

    method Get() returns (entry: QueueEntry?)
      requires Valid()
      modifies this`queueGet, this`queuePut, this`queue, this`contents, this`clients
      ensures Valid()
      ensures Entries() == old(Entries())
      ensures if old(queue) == [] then entry == null && queue == [] && clients == old(clients) && contents == []
              else
                && entry == old(queue[0]) && queue == old(queue[1..]) && clients == old(clients) + {entry}
                && old(contents) == [entry.item] + contents
    {
      if queueGet == null {
        return null;
      }
      entry := TakeFirst();
      if queueGet == null {
        queuePut := null;
      }
    }

    /** Everything queued goes to the free list, unseen. */
    method Flush()
      requires Valid()
      modifies this, queue
      ensures Valid() && queue == [] && contents == [] && clients == old(clients)
      ensures forall e :: e in free <==> e in old(queue) || e in old(free)
    {
      while queueGet != null
        invariant Partition() && clients == old(clients)
        invariant forall e | e in queue :: e in old(queue)
        invariant forall e :: e in queue || e in free <==> e in old(queue) || e in old(free)
        decreases |queue|
      {
        var temp := TakeFirst();
        Release(temp);
      }
      queuePut := null;
    }
  }
}
