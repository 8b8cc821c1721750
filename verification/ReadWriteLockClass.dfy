/** The lock as an object, its methods operation by operation.  Each operation is a step of
    the step system by the calling thread; run without interference, the methods take that
    thread from idle to reading or writing and back. */
module ReadWriteLockClass {
  import opened ReadWriteLock

  class Lock {
    var rCount: int
    var turnLock: bool
    var rLock: bool
    var wLock: bool

    /** The program counters of all threads. */
    ghost var pc: seq<PC>

    constructor (ghost threads: nat)
      ensures Valid() && Now() == ReadWriteLock.Initial(threads)
    {
      rCount, turnLock, rLock, wLock := 0, false, false, false;
      pc := ReadWriteLock.Initial(threads).pc;
      new;
      assert IsRun(ReadWriteLock.Initial(threads), [], Now());
    }

    ghost function Now(): State
      reads this
    {
      State(Shared(rCount, turnLock, rLock, wLock), pc)
    }

    /** The object is in a state that the step system reaches. */
    ghost predicate Valid()
      reads this
    {
      Reachable(Now())
    }

    /** Thread i is about to perform the operation at p, and can. */
    ghost predicate Due(i: nat, p: PC)
      reads this
    {
      i < |pc| && pc[i] == p && !Blocked(Now().shared, p)
    }

    /** Thread i has performed its operation. */
    twostate predicate Did(i: nat, toWrite: bool)
      requires CanStep(old(Now()), i)
      reads this
    {
      Valid() && Now() == Step(old(Now()), i, toWrite)
    }

    method Begin(ghost i: nat, ghost toWrite: bool)
      requires Valid() && Due(i, Idle)
      modifies this`pc
      ensures Did(i, toWrite)
    {
      ReachableStep(Now(), i, toWrite);
      pc := pc[i := if toWrite then WriteGate else ReadGate];
    }

    method LockTurn(ghost i: nat)
      requires Valid() && (Due(i, ReadGate) || Due(i, WriteGate))
      modifies this`turnLock, this`pc
      ensures Did(i, false)
    {
      ReachableStep(Now(), i, false);
      pc := pc[i := Next(Now().shared, pc[i], false)];
      turnLock := true;
    }

    method UnlockTurn(ghost i: nat)
      requires Valid() && (Due(i, ReadGatePassed) || Due(i, WriteReleaseTurn))
      modifies this`turnLock, this`pc
      ensures Did(i, false)
    {
      ReachableStep(Now(), i, false);
      pc := pc[i := Next(Now().shared, pc[i], false)];
      turnLock := false;
    }

    method LockR(ghost i: nat)
      requires Valid() && (Due(i, ReadWantR) || Due(i, EndWantR))
      modifies this`rLock, this`pc
      ensures Did(i, false)
    {
      ReachableStep(Now(), i, false);
      pc := pc[i := Next(Now().shared, pc[i], false)];
      rLock := true;
    }

    method UnlockR(ghost i: nat)
      requires Valid() && (Due(i, ReadReleaseR) || Due(i, EndReleaseR))
      modifies this`rLock, this`pc
      ensures Did(i, false)
    {
      ReachableStep(Now(), i, false);
      pc := pc[i := Next(Now().shared, pc[i], false)];
      rLock := false;
    }

    method LockW(ghost i: nat)
      requires Valid() && (Due(i, ReadWantW) || Due(i, WriteWantW))
      modifies this`wLock, this`pc
      ensures Did(i, false)
    {
      ReachableStep(Now(), i, false);
      pc := pc[i := Next(Now().shared, pc[i], false)];
      wLock := true;
    }

    method UnlockW(ghost i: nat)
      requires Valid() && (Due(i, EndReleaseW) || Due(i, WriteReleaseW))
      modifies this`wLock, this`pc
      ensures Did(i, false)
    {
      ReachableStep(Now(), i, false);
      pc := pc[i := Next(Now().shared, pc[i], false)];
      wLock := false;
    }

    method CountIn(ghost i: nat)
      requires Valid() && Due(i, ReadCount)
      modifies this`rCount, this`pc
      ensures Did(i, false)
    {
      ReachableStep(Now(), i, false);
      pc := pc[i := ReadTest];
      rCount := rCount + 1;
    }

    method CountOut(ghost i: nat)
      requires Valid() && Due(i, EndCount)
      modifies this`rCount, this`pc
      ensures Did(i, false)
    {
      ReachableStep(Now(), i, false);
      pc := pc[i := EndTest];
      rCount := rCount - 1;
    }

    method IsFirst(ghost i: nat) returns (first: bool)
      requires Valid() && Due(i, ReadTest)
      modifies this`pc
      ensures Did(i, false) && first == (rCount == 1)
    {
      ReachableStep(Now(), i, false);
      first := rCount == 1;
      pc := pc[i := Next(Now().shared, ReadTest, false)];
    }

    method IsLast(ghost i: nat) returns (last: bool)
      requires Valid() && Due(i, EndTest)
      modifies this`pc
      ensures Did(i, false) && last == (rCount == 0)
    {
      ReachableStep(Now(), i, false);
      last := rCount == 0;
      pc := pc[i := Next(Now().shared, EndTest, false)];
    }

    method Finish(ghost i: nat)
      requires Valid() && (Due(i, Reading) || Due(i, Writing))
      modifies this`pc
      ensures Did(i, false)
    {
      ReachableStep(Now(), i, false);
      pc := pc[i := Next(Now().shared, pc[i], false)];
    }

    /** Thread i has come to the operation at p and waits there. */
    ghost predicate WaitsAt(i: nat, p: PC)
      reads this
    {
      Valid() && i < |pc| && pc[i] == p && Blocked(Now().shared, p)
    }

    /** The operations of begin_read up to the first that meets a held lock; got tells whether
        there was none.  A reader gets in at once exactly if no writer is about and nobody is in
        an r_lock section. */
    method BeginRead(ghost i: nat) returns (got: bool)
      requires Valid() && Due(i, Idle)
      modifies this
      ensures got <==> old(!turnLock && !rLock && (rCount == 0 ==> !wLock))
      ensures got ==> Valid() && pc == old(pc)[i := Reading] && rCount == old(rCount) + 1
      ensures got ==> wLock && !turnLock && !rLock
      ensures !got && old(turnLock) ==>
        WaitsAt(i, ReadGate) && Now() == old(Now()).(pc := old(pc)[i := ReadGate])
      ensures !got && !old(turnLock) && old(rLock) ==>
        WaitsAt(i, ReadWantR) && Now() == old(Now()).(pc := old(pc)[i := ReadWantR])
      ensures !got && !old(turnLock) && !old(rLock) ==>
        WaitsAt(i, ReadWantW) && Now() == State(old(Now().shared).(rCount := 1, r := true), old(pc)[i := ReadWantW])
    {
      Begin(i, false);
      if turnLock {
        return false;
      }
      PassGate(i);
      if rLock {
        return false;
      }
      CountReader(i);
      got := Admit(i);
      if got {
        WIsHeld(i);
      }
    }

    method PassGate(ghost i: nat)
      requires Valid() && Due(i, ReadGate)
      modifies this`turnLock, this`pc
      ensures Valid() && pc == old(pc)[i := ReadWantR] && !turnLock
    {
      LockTurn(i);
      UnlockTurn(i);
    }

    method CountReader(ghost i: nat)
      requires Valid() && Due(i, ReadWantR)
      modifies this`rLock, this`rCount, this`pc
      ensures Valid() && pc == old(pc)[i := ReadTest] && rLock && rCount == old(rCount) + 1
    {
      LockR(i);
      CountIn(i);
    }

    /** The first reader takes w_lock, if it is free. */
    method Admit(ghost i: nat) returns (got: bool)
      requires Valid() && Due(i, ReadTest)
      modifies this`rLock, this`wLock, this`pc
      ensures got <==> old(rCount == 1 ==> !wLock)
      ensures got ==> Valid() && pc == old(pc)[i := Reading] && !rLock
      ensures !got ==> WaitsAt(i, ReadWantW) && pc == old(pc)[i := ReadWantW] && rLock == old(rLock) && wLock
    {
      var first := IsFirst(i);
      if first {
        if wLock {
          return false;
        }
        LockW(i);
      }
      UnlockR(i);
      return true;
    }

    /** The operations of end_read, likewise: the last reader out releases w_lock, the others
        do not. */
    method EndRead(ghost i: nat) returns (got: bool)
      requires Valid() && Due(i, Reading)
      modifies this
      ensures got <==> !old(rLock)
      ensures got ==> Valid() && pc == old(pc)[i := Idle] && rCount == old(rCount) - 1 && !rLock
      ensures got ==> turnLock == old(turnLock) && wLock == (rCount != 0 && old(wLock))
      ensures !got ==> WaitsAt(i, EndWantR) && Now() == old(Now()).(pc := old(pc)[i := EndWantR])
    {
      Finish(i);
      if rLock {
        return false;
      }
      Uncount(i);
      Dismiss(i);
      return true;
    }

    method Uncount(ghost i: nat)
      requires Valid() && Due(i, EndWantR)
      modifies this`rLock, this`rCount, this`pc
      ensures Valid() && pc == old(pc)[i := EndTest] && rLock && rCount == old(rCount) - 1
    {
      LockR(i);
      CountOut(i);
    }

    method Dismiss(ghost i: nat)
      requires Valid() && Due(i, EndTest)
      modifies this`rLock, this`wLock, this`pc
      ensures Valid() && pc == old(pc)[i := Idle] && !rLock
      ensures wLock == (rCount != 0 && old(wLock))
    {
      var last := IsLast(i);
      if last {
        UnlockW(i);
      }
      UnlockR(i);
    }

    /** The operations of begin_write, likewise. */
    method BeginWrite(ghost i: nat) returns (got: bool)
      requires Valid() && Due(i, Idle)
      modifies this
      ensures got <==> old(!turnLock && !wLock)
      ensures got ==> Valid() && Now() == State(old(Now().shared).(turn := true, w := true), old(pc)[i := Writing])
      ensures !got && old(turnLock) ==>
        WaitsAt(i, WriteGate) && Now() == old(Now()).(pc := old(pc)[i := WriteGate])
      ensures !got && !old(turnLock) ==>
        WaitsAt(i, WriteWantW) && Now() == State(old(Now().shared).(turn := true), old(pc)[i := WriteWantW])
    {
      Begin(i, true);
      if turnLock {
        return false;
      }
      LockTurn(i);
      if wLock {
        return false;
      }
      LockW(i);
      return true;
    }

    method EndWrite(ghost i: nat)
      requires Valid() && Due(i, Writing)
      modifies this
      ensures Valid() && pc == old(pc)[i := Idle] && !turnLock && !wLock && rCount == old(rCount) && rLock == old(rLock)
    {
      Finish(i);
      UnlockTurn(i);
      UnlockW(i);
    }

    /** While a reader is in, w_lock is held. */
    lemma WIsHeld(i: nat)
      requires Valid() && i < |pc| && pc[i] == Reading
      ensures wLock
    {
      ReachableInv(Now());
      Counted(pc, i, Inside);
    }
  }
}
