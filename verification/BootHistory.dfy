/** Boots, saves, crashes and reloads over whole runs: what a boot finds is what the last
    completed save recorded. */
module BootHistory {
  import opened SaveManager
  import opened Options

  function ThisBoot(now: Time): Boot {
    Boot(now, None, false, map[])
  }

  /** What loadCrashes leaves in memory.  If the newest save does not parse, the number of
      boots stays at whatever it was before. */
  function Loaded(d: Dir, r: Range, now: Time, parses: bool, before: int): Snapshot
    requires IsRange(d, r)
  {
    if r.NoSaves? then Snapshot(1, [ThisBoot(now)])
    else if parses then
      var s := d.saves[r.newest];
      Snapshot(s.total + 1, [ThisBoot(now)] + s.boots)
    else Snapshot(before, [ThisBoot(now)])
  }

  predicate Consistent(s: Snapshot) {
    s.total == |s.boots|
  }

  /** The number of boots and the boots agree after loading exactly if the newest save
      parsed (and agreed itself), or there was none, or the stale number happened to be 1. */
  lemma LoadConsistentIff(d: Dir, r: Range, now: Time, parses: bool, before: int)
    requires IsRange(d, r)
    ensures Consistent(Loaded(d, r, now, parses, before))
      <==> r.NoSaves? || (if parses then Consistent(d.saves[r.newest]) else before == 1)
  {
  }

  // ----- runs -----

  /** A completed save and the time it was made. */
  datatype Record = Record(snapshot: Snapshot, time: Time)

  /** The directory, the memory of the running process, if there is one, and (only in this
      model) all saves completed so far. */
  datatype System = System(dir: Dir, memory: Option<Snapshot>, completed: seq<Record>)

  datatype Event =
    | Start(r: Range, now: Time)
    | Crash
    | Change(boots: seq<Boot>)
    | Save(r: Range, removeOld: bool, now: Time, disk: Disk)
    | CrashInSave(r: Range, removeOld: bool, now: Time, disk: Disk, at: nat)

  /** setCheckpoint and setOK change the flags and checkpoints of boots, nothing else. */
  ghost predicate OnlyFlagsChange(was: seq<Boot>, now: seq<Boot>) {
    && |was| == |now|
    && forall i | 0 <= i < |was| :: now[i].bootTime == was[i].bootTime && now[i].crashTime == was[i].crashTime
  }

  function Saved(s: System, now: Time): Snapshot
    requires s.memory.Some?
  {
    SnapshotOf(s.memory.value.total, s.memory.value.boots, now)
  }

  ghost predicate Happens(s: System, e: Event) {
    match e
    case Start(r, _) => s.memory.None? && IsRange(s.dir, r)
    case Crash => s.memory.Some?
    case Change(boots) => s.memory.Some? && OnlyFlagsChange(s.memory.value.boots, boots)
    case Save(r, _, _, _) => s.memory.Some? && IsRange(s.dir, r)
    case CrashInSave(r, removeOld, now, disk, at) =>
      && s.memory.Some? && IsRange(s.dir, r)
      && at < |WriteStates(s.dir, r, removeOld, Saved(s, now), disk)|
  }

  /** The directory as the save left it; the save is complete if its number is there. */
  function Left(s: System, d: Dir, r: Range, now: Time, memory: Option<Snapshot>): System
    requires s.memory.Some?
  {
    System(d, memory, if NextNumber(r) in d.saves then s.completed + [Record(Saved(s, now), now)] else s.completed)
  }

  ghost function After(s: System, e: Event): System
    requires Happens(s, e)
  {
    match e
    case Start(r, now) => s.(memory := Some(Loaded(s.dir, r, now, true, 0)))
    case Crash => s.(memory := None)
    case Change(boots) => s.(memory := Some(s.memory.value.(boots := boots)))
    case Save(r, removeOld, now, disk) =>
      Left(s, Written(s.dir, r, removeOld, Saved(s, now), disk), r, now, s.memory)
    case CrashInSave(r, removeOld, now, disk, at) =>
      Left(s, WriteStates(s.dir, r, removeOld, Saved(s, now), disk)[at], r, now, None)
  }

  ghost predicate IsRun(s: System, events: seq<Event>, t: System)
    decreases |events|
  {
    if events == [] then s == t
    else Happens(s, events[0]) && IsRun(After(s, events[0]), events[1..], t)
  }

  function Empty(present: bool): System {
    System(Dir(present, map[], map[]), None, [])
  }

  /** Saves are numbered from 1 in the order they were completed, and the newest is there. */
  ghost predicate Kept(d: Dir, completed: seq<Record>) {
    if completed == [] then d.saves == map[]
    else IsNewest(d, |completed|) && d.saves[|completed|] == completed[|completed| - 1].snapshot
  }

  ghost predicate RecordOk(c: Record) {
    Consistent(c.snapshot) && c.snapshot.boots != [] && c.snapshot.boots[0].crashTime == c.time
  }

  ghost predicate Inv(s: System) {
    && Kept(s.dir, s.completed)
    && (s.dir.saves != map[] ==> s.dir.present)
    && (s.memory.Some? ==> Consistent(s.memory.value) && s.memory.value.boots != [])
    && (forall i | 0 <= i < |s.completed| :: RecordOk(s.completed[i]))
  }

  /** A range is what the two ends of the directory are; the newest number is the number of
      completed saves. */
  lemma RangeOf(d: Dir, completed: seq<Record>, r: Range)
    requires Kept(d, completed) && IsRange(d, r)
    ensures r.NoSaves? <==> completed == []
    ensures r.Range? ==> r.newest == |completed|
    ensures NextNumber(r) == |completed| + 1
  {
  }

  lemma {:induction false} SaveKeepsInv(s: System, r: Range, removeOld: bool, now: Time, disk: Disk, at: nat,
                                        memory: Option<Snapshot>)
    requires Inv(s) && s.memory.Some? && IsRange(s.dir, r)
    requires memory == s.memory || memory == None
    requires at < |WriteStates(s.dir, r, removeOld, Saved(s, now), disk)|
    ensures Inv(Left(s, WriteStates(s.dir, r, removeOld, Saved(s, now), disk)[at], r, now, memory))
  {
    var snap := Saved(s, now);
    var e := WriteStates(s.dir, r, removeOld, snap, disk)[at];
    RangeOf(s.dir, s.completed, r);
    StateIsOneOf(s.dir, r, removeOld, snap, disk, at);
    if r.Range? {
      CrashKeepsASave(s.dir, r, removeOld, snap, disk, at);
    }
    assert e.saves != map[] ==> e.present;
    assert RecordOk(Record(snap, now));
  }

  lemma {:induction false} EventKeepsInv(s: System, e: Event)
    requires Inv(s) && Happens(s, e)
    ensures Inv(After(s, e))
  {
    match e {
      case Start(r, now) =>
        RangeOf(s.dir, s.completed, r);
        if s.completed != [] { assert RecordOk(s.completed[|s.completed| - 1]); }
      case Crash =>
      case Change(_) =>
      case Save(r, removeOld, now, disk) =>
        SaveKeepsInv(s, r, removeOld, now, disk, |WriteStates(s.dir, r, removeOld, Saved(s, now), disk)| - 1, s.memory);
      case CrashInSave(r, removeOld, now, disk, at) => SaveKeepsInv(s, r, removeOld, now, disk, at, None);
    }
  }

  lemma {:induction false} RunKeepsInv(s: System, events: seq<Event>, t: System)
    requires Inv(s) && IsRun(s, events, t)
    ensures Inv(t)
    decreases |events|
  {
    if events != [] {
      EventKeepsInv(s, events[0]);
      RunKeepsInv(After(s, events[0]), events[1..], t);
    }
  }

  /** After any run from an empty directory, whatever crashed when: the boots in memory are
      as many as were counted, the newest save is the one completed last, and a start finds
      this boot followed by exactly the boots of that save, whose boot 0 crashed, as far as
      anyone knows, when it was made. */
  lemma {:induction false} StartFindsTheLastSave(present: bool, events: seq<Event>, t: System, r: Range, now: Time)
    requires IsRun(Empty(present), events, t) && IsRange(t.dir, r)
    ensures t.memory.Some? ==> |t.memory.value.boots| == t.memory.value.total
    ensures var m, n := Loaded(t.dir, r, now, true, 0), |t.completed|;
      && |m.boots| == m.total && m.boots[0] == ThisBoot(now)
      && (n == 0 ==> m.total == 1)
      && (n > 0 ==>
            var last := t.completed[n - 1];
            && m.total == last.snapshot.total + 1
            && m.boots[1..] == last.snapshot.boots
            && |m.boots| >= 2 && m.boots[1].crashTime == last.time)
  {
    RunKeepsInv(Empty(present), events, t);
    RangeOf(t.dir, t.completed, r);
    if t.completed != [] { assert RecordOk(t.completed[|t.completed| - 1]); }
  }

  // ----- what a save brings back -----

  /** A boot comes back as it was saved; only the time at which boot 0 crashed, as far as anyone
      knows, is filled in. */
  ghost predicate ComesBack(was: Boot, now: Boot, first: bool, time: Time) {
    && now.bootTime == was.bootTime && now.isOk == was.isOk
    && now.checkpoints.Keys == was.checkpoints.Keys
    && (forall name | name in was.checkpoints :: now.checkpoints[name] == was.checkpoints[name])
    && now.crashTime == if first then time else was.crashTime
  }

  /** What loading finds after a save of what was in memory has been completed at the given time. */
  ghost predicate Recovers(memory: Snapshot, time: Time, loaded: Snapshot, now: Time) {
    && loaded.total == memory.total + 1 && |loaded.boots| == |memory.boots| + 1
    && loaded.boots[0].bootTime == now && loaded.boots[0].crashTime == None
    && !loaded.boots[0].isOk && loaded.boots[0].checkpoints == map[]
    && forall i | 0 <= i < |memory.boots| :: ComesBack(memory.boots[i], loaded.boots[i + 1], i == 0, time)
  }

  /** The time of a save, whether it is made in peace or ends in a crash. */
  function SaveTime(e: Event): Option<Time> {
    match e
    case Save(_, _, now, _) => Some(now)
    case CrashInSave(_, _, now, _, _) => Some(now)
    case _ => None
  }

  /** Whatever happens after a completed save, until another is completed, a start brings back what
      was in memory when it was made: every boot, every flag and every checkpoint. */
  lemma {:induction false} SavedBootsComeBack(present: bool, events: seq<Event>, s: System, save: Event,
                                              later: seq<Event>, t: System, r: Range, now: Time)
    requires IsRun(Empty(present), events, s) && Happens(s, save) && SaveTime(save).Some?
    requires |After(s, save).completed| == |s.completed| + 1
    requires IsRun(After(s, save), later, t) && |t.completed| == |s.completed| + 1
    requires Happens(t, Start(r, now))
    ensures s.memory.Some? && After(t, Start(r, now)).memory.Some?
    ensures Recovers(s.memory.value, SaveTime(save).value, After(t, Start(r, now)).memory.value, now)
  {
    var u := After(s, save);
    RunKeepsInv(Empty(present), events, s);
    EventKeepsInv(s, save);
    NumbersIncrease(u, later, t);
    assert t.completed == t.completed[..|u.completed|] == u.completed;
    SavedIsRecorded(s, save);
    RunKeepsInv(u, later, t);
    StartLoadsNewest(t, r, now);
    SnapshotRecovers(s.memory.value, SaveTime(save).value, now);
  }

  lemma {:induction false} StartLoadsNewest(t: System, r: Range, now: Time)
    requires Inv(t) && Happens(t, Start(r, now)) && t.completed != []
    ensures var saved := t.completed[|t.completed| - 1].snapshot;
      After(t, Start(r, now)).memory == Some(Snapshot(saved.total + 1, [ThisBoot(now)] + saved.boots))
  {
    RangeOf(t.dir, t.completed, r);
  }

  lemma {:induction false} SnapshotRecovers(memory: Snapshot, time: Time, now: Time)
    ensures var saved := SnapshotOf(memory.total, memory.boots, time);
      Recovers(memory, time, Snapshot(saved.total + 1, [ThisBoot(now)] + saved.boots), now)
  {
  }

  lemma {:induction false} SavedIsRecorded(s: System, save: Event)
    requires Inv(s) && Happens(s, save) && SaveTime(save).Some?
    requires |After(s, save).completed| == |s.completed| + 1
    ensures s.memory.Some?
    ensures After(s, save).completed[|s.completed|].snapshot == Saved(s, SaveTime(save).value)
  {
  }

  lemma CompletedGrows(s: System, e: Event)
    requires Happens(s, e)
    ensures |s.completed| <= |After(s, e).completed| && After(s, e).completed[..|s.completed|] == s.completed
  {
  }

  /** Completed saves only ever get greater numbers. */
  lemma {:induction false} NumbersIncrease(s: System, events: seq<Event>, t: System)
    requires Inv(s) && IsRun(s, events, t)
    ensures |t.completed| >= |s.completed| && t.completed[..|s.completed|] == s.completed
    ensures |t.completed| > |s.completed| ==> IsNewest(t.dir, |t.completed|) && |t.completed| !in s.dir.saves
    decreases |events|
  {
    RunKeepsInv(s, events, t);
    if events != [] {
      var u := After(s, events[0]);
      EventKeepsInv(s, events[0]);
      NumbersIncrease(u, events[1..], t);
      CompletedGrows(s, events[0]);
      assert t.completed[..|s.completed|] == t.completed[..|u.completed|][..|s.completed|];
    }
  }
}
