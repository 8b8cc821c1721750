/** Draining the input queue, and the marks by which a caller learns that what it queued
    has been processed. */
module InterfaceManager {
  import opened InputQueue

  /** Mark numbers are kept in 32 bits. */
  const WRAP: nat := 0x1_0000_0000

  function Marks(items: seq<Item>): seq<nat> {
    if items == [] then []
    else
      var last := items[|items| - 1];
      Marks(items[..|items| - 1]) + if last.Mark? then [last.sequence] else []
  }

  function Messages(items: seq<Item>): seq<(EntryKind, int)> {
    if items == [] then []
    else
      var last := items[|items| - 1];
      Messages(items[..|items| - 1]) + if last.Message? then [(last.kind, last.content)] else []
  }

  /** The numbers that n calls of markQueue give out. */
  function Numbers(n: nat): seq<nat> {
    seq(n, i => (i + 1) % WRAP)
  }

  function LastOf(marks: seq<nat>): nat {
    if marks == [] then 0 else marks[|marks| - 1]
  }

  lemma {:induction false} SnocParts(items: seq<Item>, item: Item)
    ensures Marks(items + [item]) == Marks(items) + if item.Mark? then [item.sequence] else []
    ensures Messages(items + [item]) == Messages(items) + if item.Message? then [(item.kind, item.content)] else []
  {
  }

  /** Everything ever put into the queue, what of it has been processed, and how many marks
      were made; the program keeps none of these. */
  datatype History = History(put: seq<Item>, processed: seq<Item>, marks: nat)

  /** What has been processed, followed by what is queued, is what was put, in order; the
      marks among it are numbered in order; the messages processed were delivered once each,
      in order; and the last mark processed is the one noted. */
  ghost predicate Accounts(h: History, queued: seq<Item>, markCount: nat, delivered: seq<(EntryKind, int)>,
                           lastMark: nat) {
    && h.put == h.processed + queued
    && Marks(h.put) == Numbers(h.marks) && markCount == h.marks % WRAP
    && delivered == Messages(h.processed) && lastMark == LastOf(Marks(h.processed))
  }

  /** An unsigned 32-bit increment. */
  function Increment(n: nat): nat {
    if n + 1 == WRAP then 0 else n + 1
  }

  lemma {:induction false} MarkIsPut(h: History, queued: seq<Item>, markCount: nat, delivered: seq<(EntryKind, int)>,
                                     lastMark: nat)
    requires Accounts(h, queued, markCount, delivered, lastMark)
    ensures var n := Increment(markCount);
      Accounts(History(h.put + [Mark(n)], h.processed, h.marks + 1), queued + [Mark(n)], n, delivered, lastMark)
  {
  }

  lemma {:induction false} MessageIsPut(h: History, queued: seq<Item>, markCount: nat, delivered: seq<(EntryKind, int)>,
                                        lastMark: nat, kind: EntryKind, content: int)
    requires Accounts(h, queued, markCount, delivered, lastMark)
    ensures Accounts(h.(put := h.put + [Message(kind, content)]), queued + [Message(kind, content)],
                     markCount, delivered, lastMark)
  {
  }

  lemma {:induction false} ItemIsProcessed(h: History, item: Item, queued: seq<Item>, markCount: nat,
                                           delivered: seq<(EntryKind, int)>, lastMark: nat)
    requires Accounts(h, [item] + queued, markCount, delivered, lastMark)
    ensures Accounts(h.(processed := h.processed + [item]), queued, markCount,
      delivered + if item.Message? then [(item.kind, item.content)] else [],
      if item.Mark? then item.sequence else lastMark)
  {
  }

  class InterfaceManager {
    const inputQueue: SimpleInputQueue
    var markCount: nat
    /** Where the application notes the last mark, and what the executive was given. */
    var lastMark: nat
    var delivered: seq<(EntryKind, int)>
    ghost var history: History

    constructor (inputQueue: SimpleInputQueue)
      requires inputQueue.Valid() && inputQueue.queue == []
      ensures Valid() && this.inputQueue == inputQueue && history == History([], [], 0)
    {
      this.inputQueue := inputQueue;
      markCount, lastMark, delivered := 0, 0, [];
      history := History([], [], 0);
    }

    ghost predicate Valid()
      reads this, inputQueue, inputQueue.Entries()
    {
      inputQueue.Valid() && Accounts(history, inputQueue.contents, markCount, delivered, lastMark)
    }

    /** An entry is allocated, filled in, and put. */
    method Enqueue(item: Item)
      requires inputQueue.Valid()
      modifies inputQueue, inputQueue.Entries()
      ensures inputQueue.Valid() && inputQueue.contents == old(inputQueue.contents) + [item]
    {
      var entry := inputQueue.Allocate();
      FillIn(entry, item);
      inputQueue.Put(entry);
    }

    method FillIn(entry: QueueEntry, item: Item)
      requires inputQueue.Valid() && entry in inputQueue.clients
      modifies entry`item
      ensures entry.item == item && inputQueue.Valid()
    {
      entry.item := item;
    }

    method MarkQueue() returns (sequence: nat)
      requires Valid()
      modifies this`markCount, this`history, inputQueue, inputQueue.Entries()
      ensures Valid() && sequence == Increment(old(markCount))
      ensures history == old(history).(put := old(history).put + [Mark(sequence)], marks := old(history).marks + 1)
    {
      MarkIsPut(history, inputQueue.contents, markCount, delivered, lastMark);
      markCount := Increment(markCount);
      sequence := markCount;
      Enqueue(Mark(sequence));
      history := history.(put := history.put + [Mark(sequence)], marks := history.marks + 1);
    }

    /** A lookup value, a command handle, and so on. */
    method PutMessage(kind: EntryKind, content: int)
      requires Valid()
      modifies this`history, inputQueue, inputQueue.Entries()
      ensures Valid() && history == old(history).(put := old(history).put + [Message(kind, content)])
    {
      MessageIsPut(history, inputQueue.contents, markCount, delivered, lastMark, kind, content);
      Enqueue(Message(kind, content));
      history := history.(put := history.put + [Message(kind, content)]);
    }

    /** Processes all that is queued; tells whether the executive was given anything. */
    method ProcessQueue() returns (needsStep: bool)
      requires Valid()
      modifies this`lastMark, this`delivered, this`history, inputQueue, inputQueue.Entries()
      ensures Valid() && inputQueue.IsEmpty()
      ensures history == old(history).(processed := old(history).put)
      ensures old(delivered) <= delivered && (needsStep <==> delivered != old(delivered))
    {
      needsStep := false;
      while !inputQueue.IsEmpty()
        invariant Valid() && inputQueue.Entries() == old(inputQueue.Entries())
        invariant history == old(history).(processed := history.processed)
        invariant old(delivered) <= delivered && (needsStep <==> delivered != old(delivered))
        decreases |inputQueue.queue|
      {
        var gave := ProcessNext();
        needsStep := needsStep || gave;
      }
      assert inputQueue.contents == [];
    }

    /** One entry, recycled afterwards. */
    method ProcessNext() returns (gave: bool)
      requires Valid() && !inputQueue.IsEmpty()
      modifies this`lastMark, this`delivered, this`history, inputQueue, inputQueue.Entries()
      ensures Valid() && inputQueue.Entries() == old(inputQueue.Entries())
      ensures |inputQueue.queue| == old(|inputQueue.queue|) - 1
      ensures history == old(history).(processed := history.processed)
      ensures old(delivered) <= delivered && |delivered| == |old(delivered)| + if gave then 1 else 0
    {
      var entry := inputQueue.Get();
      gave := Process(entry);
    }

    method Process(entry: QueueEntry) returns (gave: bool)
      requires inputQueue.Valid() && entry in inputQueue.clients
      requires Accounts(history, [entry.item] + inputQueue.contents, markCount, delivered, lastMark)
      modifies this`lastMark, this`delivered, this`history, inputQueue`freeList, inputQueue`free, inputQueue`clients,
        entry
      ensures inputQueue.Valid() && inputQueue.Entries() == old(inputQueue.Entries())
      ensures Accounts(history, inputQueue.contents, markCount, delivered, lastMark)
      ensures history == old(history).(processed := history.processed)
      ensures old(delivered) <= delivered && |delivered| == |old(delivered)| + if gave then 1 else 0
    {
      ghost var item := entry.item;
      ItemIsProcessed(history, item, inputQueue.contents, markCount, delivered, lastMark);
      gave := Deliver(entry.item);
      history := history.(processed := history.processed + [item]);
      inputQueue.Release(entry);
    }

    method Deliver(item: Item) returns (gave: bool)
      modifies this`lastMark, this`delivered
      ensures lastMark == if item.Mark? then item.sequence else old(lastMark)
      ensures delivered == old(delivered) + if item.Message? then [(item.kind, item.content)] else []
      ensures gave <==> item.Message?
    {
      gave := false;
      match item {
        case Mark(sequence) => lastMark := sequence;
        case Message(kind, content) =>
          delivered := delivered + [(kind, content)];
          gave := true;
        case Blank =>
      }
    }
  }

  // ----- what a mark tells -----

  lemma {:induction false} MarksOfPrefix(items: seq<Item>, n: nat)
    requires n <= |items|
    ensures Marks(items[..n]) <= Marks(items)
    decreases |items|
  {
    if n < |items| {
      MarksOfPrefix(items[..|items| - 1], n);
      assert items[..|items| - 1][..n] == items[..n];
    } else {
      assert items[..n] == items;
    }
  }

  /** Every message is delivered, with what it carries, after exactly the messages put before it. */
  lemma {:induction false} MessagesExactly(items: seq<Item>, i: nat)
    requires i < |items| && items[i].Message?
    ensures |Messages(items[..i])| < |Messages(items)| && Messages(items[..i]) <= Messages(items)
    ensures Messages(items)[|Messages(items[..i])|] == (items[i].kind, items[i].content)
    decreases |items|
  {
    var last := |items| - 1;
    if i < last {
      MessagesExactly(items[..last], i);
      assert items[..last][..i] == items[..i];
    }
  }

  /** And nothing else is delivered. */
  lemma {:induction false} OnlyMessages(items: seq<Item>, k: nat) returns (i: nat)
    requires k < |Messages(items)|
    ensures i < |items| && items[i] == Message(Messages(items)[k].0, Messages(items)[k].1)
    ensures |Messages(items[..i])| == k
    decreases |items|
  {
    var last := |items| - 1;
    if k < |Messages(items[..last])| {
      i := OnlyMessages(items[..last], k);
      assert items[..last][..i] == items[..i];
    } else {
      i := last;
    }
  }

  /** Every mark is among the marks, after those put before it. */
  lemma {:induction false} MarksExactly(items: seq<Item>, i: nat)
    requires i < |items| && items[i].Mark?
    ensures |Marks(items[..i])| < |Marks(items)| && Marks(items)[|Marks(items[..i])|] == items[i].sequence
    decreases |items|
  {
    var last := |items| - 1;
    if i < last {
      MarksExactly(items[..last], i);
      assert items[..last][..i] == items[..i];
    }
  }

  /** The numbers given out strictly increase exactly if there are fewer than 2^32. */
  lemma {:induction false} NumbersIncreaseIff(n: nat)
    ensures (forall i, j | 0 <= i < j < n :: Numbers(n)[i] < Numbers(n)[j]) <==> n < WRAP
  {
    if n >= WRAP {
      assert Numbers(n)[WRAP - 2] == WRAP - 1 && Numbers(n)[WRAP - 1] == 0;
    }
  }

  /** The caller of markQueue waits until the last mark noted is not less than its own.  With
      the first n items processed, this tells whether item i, a mark, is among them, and with
      it everything queued before. */
  predicate TellsExactly(put: seq<Item>, n: nat, i: nat)
    requires n <= |put| && i < |put| && put[i].Mark?
  {
    LastOf(Marks(put[..n])) >= put[i].sequence <==> i < n
  }

  /** It tells exactly that, for every mark at every time, if and only if fewer than 2^32 marks
      have been made. */
  lemma {:induction false} WaitingIsExactIff(put: seq<Item>, marks: nat)
    requires Marks(put) == Numbers(marks)
    ensures (forall n: nat, i: nat | n <= |put| && i < |put| && put[i].Mark? :: TellsExactly(put, n, i))
      <==> marks < WRAP
  {
    if marks < WRAP {
      forall n: nat, i: nat | n <= |put| && i < |put| && put[i].Mark? ensures TellsExactly(put, n, i) {
        WaitingIsExact(put, put[..n], marks, i);
      }
    } else {
      var i := WrappedMarkIsNotAwaited(put, marks);
      assert !TellsExactly(put, i, i);
    }
  }

  lemma {:induction false} WaitingIsExact(put: seq<Item>, processed: seq<Item>, marks: nat, i: nat)
    requires processed <= put && Marks(put) == Numbers(marks)
    requires marks < WRAP && i < |put| && put[i].Mark?
    ensures LastOf(Marks(processed)) >= put[i].sequence <==> i < |processed|
  {
    var p := |processed|;
    assert put[..p] == processed;
    MarksOfPrefix(put, p);
    MarksOfPrefix(put, i + 1);
    SnocParts(put[..i], put[i]);
    assert put[..i + 1] == put[..i] + [put[i]];
    if i < p {
      MarksOfPrefix(processed, i + 1);
      assert processed[..i + 1] == put[..i + 1];
    } else {
      MarksOfPrefix(put[..i], p);
      assert put[..i][..p] == processed;
    }
    NumbersAreOrdered(put, processed, marks, i);
  }

  /** The place of a mark among the marks is its number. */
  lemma {:induction false} NumbersAreOrdered(put: seq<Item>, processed: seq<Item>, marks: nat, i: nat)
    requires Marks(put) == Numbers(marks) && marks < WRAP && i < |put| && put[i].Mark?
    requires Marks(put[..i + 1]) <= Marks(put) && Marks(processed) <= Marks(put)
    requires Marks(put[..i + 1]) == Marks(put[..i]) + [put[i].sequence]
    ensures put[i].sequence == |Marks(put[..i + 1])|
    ensures LastOf(Marks(processed)) == |Marks(processed)|
  {
    var own := Marks(put[..i + 1]);
    assert own[|own| - 1] == Numbers(marks)[|own| - 1];
    var done := Marks(processed);
    if done != [] {
      assert done[|done| - 1] == Numbers(marks)[|done| - 1];
    }
  }

  /** Once the numbers wrap, the mark numbered 0 counts as processed while it is still queued,
      with everything before it processed. */
  lemma {:induction false} WrappedMarkIsNotAwaited(put: seq<Item>, marks: nat) returns (i: nat)
    requires Marks(put) == Numbers(marks) && marks >= WRAP
    ensures i < |put| && put[i].Mark? && put[i].sequence == 0 && |Marks(put[..i])| == WRAP - 1
    ensures LastOf(Marks(put[..i])) >= put[i].sequence
  {
    assert Numbers(marks)[WRAP - 1] == 0;
    i := PlaceOfMark(put, WRAP - 1);
  }

  /** Where the k-th mark is. */
  lemma {:induction false} PlaceOfMark(items: seq<Item>, k: nat) returns (i: nat)
    requires k < |Marks(items)|
    ensures i < |items| && items[i].Mark? && items[i].sequence == Marks(items)[k] && |Marks(items[..i])| == k
    decreases |items|
  {
    var last := |items| - 1;
    if k < |Marks(items[..last])| {
      i := PlaceOfMark(items[..last], k);
      assert items[..last][..i] == items[..i];
    } else {
      i := last;
    }
  }
}
