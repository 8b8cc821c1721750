/** The write-favouring read-write lock under any number of threads.  A thread's program
    counter says which lock operation or access to the count it performs next. */
module ReadWriteLock {

  datatype PC =
    | Idle
    | ReadGate | ReadGatePassed | ReadWantR | ReadCount | ReadTest | ReadWantW | ReadReleaseR
    | Reading
    | EndWantR | EndCount | EndTest | EndReleaseW | EndReleaseR
    | WriteGate | WriteWantW
    | Writing
    | WriteReleaseTurn | WriteReleaseW

  /** The count of readers, and which of the three mutexes are locked.  They are binary
      locks: any thread may unlock them. */
  datatype Shared = Shared(rCount: int, turn: bool, r: bool, w: bool)

  datatype State = State(shared: Shared, pc: seq<PC>)

  function Initial(threads: nat): State {
    State(Shared(0, false, false, false), seq(threads, i => Idle))
  }

  /** The operation at p locks a lock that is held. */
  predicate Blocked(s: Shared, p: PC) {
    match p
    case ReadGate => s.turn
    case WriteGate => s.turn
    case ReadWantR => s.r
    case EndWantR => s.r
    case ReadWantW => s.w
    case WriteWantW => s.w
    case _ => false
  }

  /** What the operation at p does to the shared variables. */
  function Effect(s: Shared, p: PC): Shared {
    match p
    case ReadGate => s.(turn := true)
    case ReadGatePassed => s.(turn := false)
    case ReadWantR => s.(r := true)
    case ReadCount => s.(rCount := s.rCount + 1)
    case ReadWantW => s.(w := true)
    case ReadReleaseR => s.(r := false)
    case EndWantR => s.(r := true)
    case EndCount => s.(rCount := s.rCount - 1)
    case EndReleaseW => s.(w := false)
    case EndReleaseR => s.(r := false)
    case WriteGate => s.(turn := true)
    case WriteWantW => s.(w := true)
    case WriteReleaseTurn => s.(turn := false)
    case WriteReleaseW => s.(w := false)
    case _ => s
  }

  /** Where the thread goes from p; an idle one begins to read or to write. */
  function Next(s: Shared, p: PC, toWrite: bool): PC {
    match p
    case Idle => if toWrite then WriteGate else ReadGate
    case ReadGate => ReadGatePassed
    case ReadGatePassed => ReadWantR
    case ReadWantR => ReadCount
    case ReadCount => ReadTest
    case ReadTest => if s.rCount == 1 then ReadWantW else ReadReleaseR
    case ReadWantW => ReadReleaseR
    case ReadReleaseR => Reading
    case Reading => EndWantR
    case EndWantR => EndCount
    case EndCount => EndTest
    case EndTest => if s.rCount == 0 then EndReleaseW else EndReleaseR
    case EndReleaseW => EndReleaseR
    case EndReleaseR => Idle
    case WriteGate => WriteWantW
    case WriteWantW => Writing
    case Writing => WriteReleaseTurn
    case WriteReleaseTurn => WriteReleaseW
    case WriteReleaseW => Idle
  }

  predicate CanStep(s: State, i: nat) {
    i < |s.pc| && !Blocked(s.shared, s.pc[i])
  }

  function Step(s: State, i: nat, toWrite: bool): State
    requires CanStep(s, i)
  {
    State(Effect(s.shared, s.pc[i]), s.pc[i := Next(s.shared, s.pc[i], toWrite)])
  }

  /** A schedule: which thread steps, and what it begins if it is idle. */
  type Schedule = seq<(nat, bool)>

  ghost predicate IsRun(s: State, steps: Schedule, t: State)
    decreases |steps|
  {
    if steps == [] then s == t
    else CanStep(s, steps[0].0) && IsRun(Step(s, steps[0].0, steps[0].1), steps[1..], t)
  }

  ghost predicate Reachable(s: State) {
    exists threads: nat, steps: Schedule :: IsRun(Initial(threads), steps, s)
  }

  // ----- counting threads -----

  /** How many threads there are in each of seven groups: the holders of turn_lock and of
      r_lock, and of w_lock for writing; readers that are in and hold no lock; readers in an
      r_lock section that the count includes, and those there on whose behalf w_lock is
      held; the first reader in and the last out. */
  datatype Tally = Tally(turn: int, r: int, writers: int, inside: int, countedInR: int, groupInR: int, soleReader: int)

  /** The groups a single thread at p is in. */
  function Profile(p: PC): Tally {
    match p
    case ReadGatePassed => Tally(1, 0, 0, 0, 0, 0, 0)
    case ReadCount => Tally(0, 1, 0, 0, 0, 0, 0)
    case ReadTest => Tally(0, 1, 0, 0, 1, 0, 0)
    case ReadWantW => Tally(0, 1, 0, 0, 1, 0, 1)
    case ReadReleaseR => Tally(0, 1, 0, 0, 1, 1, 0)
    case Reading => Tally(0, 0, 0, 1, 0, 0, 0)
    case EndWantR => Tally(0, 0, 0, 1, 0, 0, 0)
    case EndCount => Tally(0, 1, 0, 0, 1, 1, 0)
    case EndTest => Tally(0, 1, 0, 0, 0, 1, 0)
    case EndReleaseW => Tally(0, 1, 0, 0, 0, 1, 1)
    case EndReleaseR => Tally(0, 1, 0, 0, 0, 0, 0)
    case WriteWantW => Tally(1, 0, 0, 0, 0, 0, 0)
    case Writing => Tally(1, 0, 1, 0, 0, 0, 0)
    case WriteReleaseTurn => Tally(1, 0, 1, 0, 0, 0, 0)
    case WriteReleaseW => Tally(0, 0, 1, 0, 0, 0, 0)
    case _ => Tally(0, 0, 0, 0, 0, 0, 0)
  }

  datatype Group = TurnHolders | RHolders | Writers | Inside | CountedInR | GroupInR | SoleReader

  function Number(n: Tally, g: Group): int {
    match g
    case TurnHolders => n.turn
    case RHolders => n.r
    case Writers => n.writers
    case Inside => n.inside
    case CountedInR => n.countedInR
    case GroupInR => n.groupInR
    case SoleReader => n.soleReader
  }

  predicate In(p: PC, g: Group) {
    Number(Profile(p), g) == 1
  }

  function One(b: bool): nat {
    if b then 1 else 0
  }

  function Count(pc: seq<PC>, group: Group): nat {
    if pc == [] then 0
    else Count(pc[..|pc| - 1], group) + One(In(pc[|pc| - 1], group))
  }

  lemma {:induction false} CountAfter(pc: seq<PC>, i: nat, to: PC, group: Group)
    requires i < |pc|
    ensures Count(pc[i := to], group) == Count(pc, group) - One(In(pc[i], group)) + One(In(to, group))
    decreases |pc|
  {
    var last := |pc| - 1;
    if i == last {
      assert pc[i := to][..last] == pc[..last];
    } else {
      CountAfter(pc[..last], i, to, group);
      assert pc[i := to][..last] == pc[..last][i := to];
    }
  }

  lemma {:induction false} Counted(pc: seq<PC>, i: nat, group: Group)
    requires i < |pc| && In(pc[i], group)
    ensures Count(pc, group) >= 1
    ensures forall j | 0 <= j < |pc| && j != i && In(pc[j], group) :: Count(pc, group) >= 2
    decreases |pc|
  {
    var last := |pc| - 1;
    if i < last {
      Counted(pc[..last], i, group);
    } else {
      forall j | 0 <= j < last && In(pc[j], group) ensures Count(pc, group) >= 2 {
        Counted(pc[..last], j, group);
      }
    }
  }

  lemma {:induction false} Somebody(pc: seq<PC>, group: Group) returns (i: nat)
    requires Count(pc, group) > 0
    ensures i < |pc| && In(pc[i], group)
    decreases |pc|
  {
    var last := |pc| - 1;
    if In(pc[last], group) { i := last; } else { i := Somebody(pc[..last], group); }
  }

  lemma {:induction false} CountSubset(pc: seq<PC>, part: Group, group: Group)
    requires forall p :: In(p, part) ==> In(p, group)
    ensures Count(pc, part) <= Count(pc, group)
    decreases |pc|
  {
    if pc != [] { CountSubset(pc[..|pc| - 1], part, group); }
  }

  // ----- the invariant -----

  function TallyOf(pc: seq<PC>): Tally {
    Tally(Count(pc, TurnHolders), Count(pc, RHolders), Count(pc, Writers), Count(pc, Inside),
          Count(pc, CountedInR), Count(pc, GroupInR), Count(pc, SoleReader))
  }

  /** The shared variables against those numbers: turn and r have one holder or none, the
      count is that of the readers admitted, and w is held by one writer or on behalf of
      the readers. */
  predicate Balanced(s: Shared, n: Tally) {
    && 0 <= n.turn <= 1 && (s.turn <==> n.turn == 1)
    && 0 <= n.r <= 1 && (s.r <==> n.r == 1)
    && s.rCount == n.inside + n.countedInR
    && 0 <= n.writers <= 1 && (s.w <==> n.writers == 1 || n.inside + n.groupInR > 0)
    && (n.writers == 1 ==> n.inside + n.groupInR == 0)
    && (n.soleReader > 0 ==> n.inside == 0)
  }

  ghost predicate Inv(s: State) {
    Balanced(s.shared, TallyOf(s.pc))
  }

  lemma {:induction false} NobodyCounts(threads: nat, group: Group)
    ensures Count(Initial(threads).pc, group) == 0
    decreases threads
  {
    if threads > 0 {
      NobodyCounts(threads - 1, group);
      assert Initial(threads).pc[..threads - 1] == Initial(threads - 1).pc;
    }
  }

  lemma InitialInv(threads: nat)
    ensures Inv(Initial(threads))
  {
    forall g: Group ensures Count(Initial(threads).pc, g) == 0 {
      NobodyCounts(threads, g);
    }
  }

  /** A thread in an r_lock section is alone there. */
  lemma {:induction false} AloneInR(s: State, i: nat, group: Group)
    requires Inv(s) && i < |s.pc| && In(s.pc[i], RHolders)
    requires group == CountedInR || group == GroupInR || group == SoleReader
    ensures Count(s.pc, group) == One(In(s.pc[i], group))
  {
    Counted(s.pc, i, RHolders);
    CountSubset(s.pc, group, RHolders);
    if In(s.pc[i], group) {
      Counted(s.pc, i, group);
    } else if Count(s.pc, group) > 0 {
      var j := Somebody(s.pc, group);
    }
  }

  /** The numbers after a thread has gone from p to q. */
  function After(n: Tally, p: Tally, q: Tally): Tally {
    Tally(n.turn - p.turn + q.turn, n.r - p.r + q.r, n.writers - p.writers + q.writers, n.inside - p.inside + q.inside,
          n.countedInR - p.countedInR + q.countedInR, n.groupInR - p.groupInR + q.groupInR,
          n.soleReader - p.soleReader + q.soleReader)
  }

  /** What is known of the numbers when one thread has profile p. */
  predicate Witnessed(n: Tally, p: Tally) {
    && n.inside >= p.inside && n.writers >= p.writers && n.turn >= p.turn
    && n.r >= p.r && n.groupInR >= 0 && n.countedInR >= 0 && 0 <= n.soleReader <= n.r
    && (p.r == 1 ==> n.countedInR == p.countedInR && n.groupInR == p.groupInR && n.soleReader == p.soleReader)
  }

  /** The operation at p takes the shared variables from s to t and the thread to q. */
  predicate Operates(s: Shared, p: PC, toWrite: bool, n: Tally, t: Shared, q: PC, m: Tally) {
    && !Blocked(s, p) && Witnessed(n, Profile(p))
    && t == Effect(s, p) && q == Next(s, p, toWrite) && m == After(n, Profile(p), Profile(q))
  }

  lemma {:induction false} StepKeepsInv(s: State, i: nat, toWrite: bool)
    requires Inv(s) && CanStep(s, i)
    ensures Inv(Step(s, i, toWrite))
  {
    var p, t := s.pc[i], Step(s, i, toWrite);
    TallyAfter(s.pc, i, t.pc[i]);
    ThreadWitnesses(s, i);
    OperationBalances(s.shared, p, toWrite, TallyOf(s.pc), t.shared, t.pc[i], TallyOf(t.pc));
  }

  /** The arithmetic of one operation. */
  lemma OperationBalances(s: Shared, p: PC, toWrite: bool, n: Tally, t: Shared, q: PC, m: Tally)
    requires Balanced(s, n) && Operates(s, p, toWrite, n, t, q, m)
    ensures Balanced(t, m)
  {
    if p in {ReadGate, ReadGatePassed, ReadWantR, ReadCount, ReadTest, ReadWantW, ReadReleaseR} {
      BeginReadBalances(s, p, toWrite, n, t, q, m);
    } else if p in {Reading, EndWantR, EndCount, EndTest, EndReleaseW, EndReleaseR} {
      EndReadBalances(s, p, toWrite, n, t, q, m);
    } else {
      WriteBalances(s, p, toWrite, n, t, q, m);
    }
  }

  lemma BeginReadBalances(s: Shared, p: PC, toWrite: bool, n: Tally, t: Shared, q: PC, m: Tally)
    requires p in {ReadGate, ReadGatePassed, ReadWantR, ReadCount, ReadTest, ReadWantW, ReadReleaseR}
    requires Balanced(s, n) && Operates(s, p, toWrite, n, t, q, m)
    ensures Balanced(t, m)
  {
  }

  lemma EndReadBalances(s: Shared, p: PC, toWrite: bool, n: Tally, t: Shared, q: PC, m: Tally)
    requires p in {Reading, EndWantR, EndCount, EndTest, EndReleaseW, EndReleaseR}
    requires Balanced(s, n) && Operates(s, p, toWrite, n, t, q, m)
    ensures Balanced(t, m)
  {
  }

  lemma WriteBalances(s: Shared, p: PC, toWrite: bool, n: Tally, t: Shared, q: PC, m: Tally)
    requires p in {Idle, WriteGate, WriteWantW, Writing, WriteReleaseTurn, WriteReleaseW}
    requires Balanced(s, n) && Operates(s, p, toWrite, n, t, q, m)
    ensures Balanced(t, m)
  {
  }

  lemma {:induction false} TallyAfter(pc: seq<PC>, i: nat, q: PC)
    requires i < |pc|
    ensures TallyOf(pc[i := q]) == After(TallyOf(pc), Profile(pc[i]), Profile(q))
  {
    NumberAfter(pc, i, q, TurnHolders);
    NumberAfter(pc, i, q, RHolders);
    NumberAfter(pc, i, q, Writers);
    NumberAfter(pc, i, q, Inside);
    NumberAfter(pc, i, q, CountedInR);
    NumberAfter(pc, i, q, GroupInR);
    NumberAfter(pc, i, q, SoleReader);
  }

  lemma {:induction false} NumberAfter(pc: seq<PC>, i: nat, q: PC, g: Group)
    requires i < |pc|
    ensures Count(pc[i := q], g) == Count(pc, g) - Number(Profile(pc[i]), g) + Number(Profile(q), g)
  {
    CountAfter(pc, i, q, g);
    ZeroOrOne(pc[i], g);
    ZeroOrOne(q, g);
  }

  lemma ZeroOrOne(p: PC, g: Group)
    ensures Number(Profile(p), g) == One(In(p, g))
  {
  }

  lemma {:induction false} ThreadWitnesses(s: State, i: nat)
    requires Inv(s) && i < |s.pc|
    ensures Witnessed(TallyOf(s.pc), Profile(s.pc[i]))
  {
    AtLeast(s.pc, i, Inside);
    AtLeast(s.pc, i, Writers);
    AtLeast(s.pc, i, TurnHolders);
    AtLeast(s.pc, i, RHolders);
    CountSubset(s.pc, SoleReader, RHolders);
    if In(s.pc[i], RHolders) {
      AloneInR(s, i, CountedInR);
      AloneInR(s, i, GroupInR);
      AloneInR(s, i, SoleReader);
    }
  }

  lemma {:induction false} AtLeast(pc: seq<PC>, i: nat, g: Group)
    requires i < |pc|
    ensures Count(pc, g) >= Number(Profile(pc[i]), g)
  {
    if In(pc[i], g) { Counted(pc, i, g); }
  }

  lemma {:induction false} RunKeepsInv(s: State, steps: Schedule, t: State)
    requires Inv(s) && IsRun(s, steps, t)
    ensures Inv(t)
    decreases |steps|
  {
    if steps != [] {
      StepKeepsInv(s, steps[0].0, steps[0].1);
      RunKeepsInv(Step(s, steps[0].0, steps[0].1), steps[1..], t);
    }
  }

  lemma ReachableInv(s: State)
    requires Reachable(s)
    ensures Inv(s)
  {
    var threads: nat, steps: Schedule :| IsRun(Initial(threads), steps, s);
    InitialInv(threads);
    RunKeepsInv(Initial(threads), steps, s);
  }

  // ----- safety -----

  /** A writer in its critical section, up to its unlocking w_lock, excludes every reader in
      its own and every other writer. */
  lemma {:induction false} WriterExcludesEverybody(s: State, i: nat, j: nat)
    requires Reachable(s) && i < |s.pc| && j < |s.pc| && i != j
    requires In(s.pc[i], Writers)
    ensures !In(s.pc[j], Writers) && !In(s.pc[j], Inside) && !In(s.pc[j], GroupInR)
  {
    ReachableInv(s);
    Counted(s.pc, i, Writers);
    if In(s.pc[j], Inside) { Counted(s.pc, j, Inside); }
    if In(s.pc[j], GroupInR) { Counted(s.pc, j, GroupInR); }
  }

  /** Outside r_lock sections the count is the number of readers admitted, and w_lock is
      held for them exactly if there are any. */
  lemma {:induction false} CountIsTheReaders(s: State)
    requires Reachable(s) && !s.shared.r
    ensures s.shared.rCount == Count(s.pc, Inside)
    ensures s.shared.w <==> Count(s.pc, Inside) > 0 || Count(s.pc, Writers) > 0
  {
    ReachableInv(s);
    QuietTally(s.shared, s.pc);
  }

  lemma {:induction false} QuietTally(s: Shared, pc: seq<PC>)
    requires Balanced(s, TallyOf(pc)) && !s.r
    ensures s.rCount == Count(pc, Inside) && (s.w <==> Count(pc, Inside) > 0 || Count(pc, Writers) > 0)
  {
    CountSubset(pc, CountedInR, RHolders);
    CountSubset(pc, GroupInR, RHolders);
  }

  // ----- progress -----

  /** While any thread is not idle, some such thread can perform its next operation. */
  lemma {:induction false} NoDeadlock(s: State, i: nat) returns (j: nat)
    requires Reachable(s) && i < |s.pc| && s.pc[i] != Idle
    ensures j < |s.pc| && s.pc[j] != Idle && CanStep(s, j)
  {
    ReachableInv(s);
    if CanStep(s, i) {
      j := i;
    } else if s.pc[i] == ReadGate || s.pc[i] == WriteGate {
      var k := Somebody(s.pc, TurnHolders);
      if CanStep(s, k) { j := k; } else { j := OwnerOfW(s); }
    } else if s.pc[i] == ReadWantR || s.pc[i] == EndWantR {
      j := OwnerOfR(s);
    } else {
      j := OwnerOfW(s);
    }
  }

  /** Whoever is in an r_lock section can go on, or waits for a writer that can. */
  lemma {:induction false} OwnerOfR(s: State) returns (j: nat)
    requires Inv(s) && s.shared.r
    ensures j < |s.pc| && s.pc[j] != Idle && CanStep(s, j)
  {
    j := Somebody(s.pc, RHolders);
    if !CanStep(s, j) {
      ThreadWitnesses(s, j);
      j := Somebody(s.pc, Writers);
    }
  }

  lemma {:induction false} OwnerOfW(s: State) returns (j: nat)
    requires Inv(s) && s.shared.w
    ensures j < |s.pc| && s.pc[j] != Idle && CanStep(s, j)
  {
    if Count(s.pc, Writers) > 0 {
      j := Somebody(s.pc, Writers);
    } else if Count(s.pc, GroupInR) > 0 {
      j := Somebody(s.pc, GroupInR);
    } else {
      j := Somebody(s.pc, Inside);
      if !CanStep(s, j) { j := OwnerOfR(s); }
    }
  }

  /** How many operations a thread past the gate has left before it is idle. */
  function Left(p: PC): nat {
    match p
    case ReadGatePassed => 12
    case ReadWantR => 11
    case ReadCount => 10
    case ReadTest => 9
    case ReadWantW => 8
    case ReadReleaseR => 7
    case Reading => 6
    case EndWantR => 5
    case EndCount => 4
    case EndTest => 3
    case EndReleaseW => 2
    case EndReleaseR => 1
    case WriteWantW => 4
    case Writing => 3
    case WriteReleaseTurn => 2
    case WriteReleaseW => 1
    case _ => 0
  }

  /** The operations left to all threads past the gate. */
  function Measure(pc: seq<PC>): nat {
    if pc == [] then 0 else Measure(pc[..|pc| - 1]) + Left(pc[|pc| - 1])
  }

  lemma {:induction false} MeasureAfter(pc: seq<PC>, i: nat, q: PC)
    requires i < |pc|
    ensures Measure(pc[i := q]) == Measure(pc) - Left(pc[i]) + Left(q)
    decreases |pc|
  {
    var last := |pc| - 1;
    if i == last {
      assert pc[i := q][..last] == pc[..last];
    } else {
      MeasureAfter(pc[..last], i, q);
      assert pc[i := q][..last] == pc[..last][i := q];
    }
  }

  /** A thread that only arrives at a gate. */
  predicate Arrives(s: State, i: nat)
    requires i < |s.pc|
  {
    s.pc[i] == Idle
  }

  predicate PastGate(p: PC) {
    Left(p) > 0
  }

  /** Once a writer owns turn_lock, no thread passes the gate, and every operation of
      another thread, arrivals apart, brings the measure down. */
  lemma {:induction false} WaitingWriterGetsCloser(s: State, writer: nat, i: nat, toWrite: bool)
    requires Reachable(s) && writer < |s.pc| && s.pc[writer] == WriteWantW
    requires CanStep(s, i) && i != writer
    ensures PastGate(Step(s, i, toWrite).pc[i]) ==> PastGate(s.pc[i])
    ensures if Arrives(s, i) then Measure(Step(s, i, toWrite).pc) == Measure(s.pc)
            else Measure(Step(s, i, toWrite).pc) < Measure(s.pc)
  {
    ReachableInv(s);
    Counted(s.pc, writer, TurnHolders);
    MeasureAfter(s.pc, i, Next(s.shared, s.pc[i], toWrite));
  }

  /** The operations of a run that are not arrivals. */
  function Work(s: State, steps: Schedule): nat
    decreases |steps|
  {
    if steps == [] || !CanStep(s, steps[0].0) then 0
    else One(!Arrives(s, steps[0].0)) + Work(Step(s, steps[0].0, steps[0].1), steps[1..])
  }

  ghost predicate WaitsThroughout(s: State, steps: Schedule, writer: nat)
    decreases |steps|
  {
    && writer < |s.pc| && s.pc[writer] == WriteWantW
    && (steps != [] && CanStep(s, steps[0].0) ==>
          steps[0].0 != writer && WaitsThroughout(Step(s, steps[0].0, steps[0].1), steps[1..], writer))
  }

  /** While the writer waits, the others together perform at most as many operations as
      were left to the threads past the gate when it got turn_lock. */
  lemma {:induction false} WriterWaitsBoundedly(s: State, steps: Schedule, t: State, writer: nat)
    requires Reachable(s) && IsRun(s, steps, t) && WaitsThroughout(s, steps, writer)
    ensures Work(s, steps) + Measure(t.pc) <= Measure(s.pc)
    decreases |steps|
  {
    if steps != [] {
      var (i, toWrite) := steps[0];
      WaitingWriterGetsCloser(s, writer, i, toWrite);
      ReachableStep(s, i, toWrite);
      WriterWaitsBoundedly(Step(s, i, toWrite), steps[1..], t, writer);
    }
  }

  lemma {:induction false} ReachableStep(s: State, i: nat, toWrite: bool)
    requires Reachable(s) && CanStep(s, i)
    ensures Reachable(Step(s, i, toWrite))
  {
    var threads: nat, steps: Schedule :| IsRun(Initial(threads), steps, s);
    RunThenStep(Initial(threads), steps, s, i, toWrite);
  }

  lemma {:induction false} RunThenStep(s: State, steps: Schedule, t: State, i: nat, toWrite: bool)
    requires IsRun(s, steps, t) && CanStep(t, i)
    ensures IsRun(s, steps + [(i, toWrite)], Step(t, i, toWrite))
    decreases |steps|
  {
    if steps == [] {
      assert ([(i, toWrite)])[1..] == [];
    } else {
      RunThenStep(Step(s, steps[0].0, steps[0].1), steps[1..], t, i, toWrite);
      assert (steps + [(i, toWrite)])[1..] == steps[1..] + [(i, toWrite)];
    }
  }

  /** If the waiting writer cannot go on, a thread past the gate can, and the measure has
      not run out. */
  lemma {:induction false} SomebodyMakesWay(s: State, writer: nat) returns (j: nat)
    requires Reachable(s) && writer < |s.pc| && s.pc[writer] == WriteWantW && !CanStep(s, writer)
    ensures j != writer && CanStep(s, j) && PastGate(s.pc[j])
  {
    ReachableInv(s);
    j := OwnerOfW(s);
    Counted(s.pc, writer, TurnHolders);
  }
}
