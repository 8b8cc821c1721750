/** The checkpoint system's rotating save files: numbered complete saves, written to a
    temporary file that is renamed once it is complete. */
module SaveManager {

  import opened Options

  type Time = Option<real>

  datatype Checkpoint = Checkpoint(state: bool, time: Time, info: string)

  datatype Boot = Boot(bootTime: Time, crashTime: Time, isOk: bool, checkpoints: map<string, Checkpoint>)

  /** A save file's tree: the number of boots so far, and what is known of each, latest first. */
  datatype Snapshot = Snapshot(total: int, boots: seq<Boot>)

  datatype Part = Torn | Whole(snapshot: Snapshot)

  /** The save directory: numbered saves, and files still being written, by their numbers. */
  datatype Dir = Dir(present: bool, saves: map<nat, Snapshot>, parts: map<nat, Part>)

  /** What the operating system answers: whether a missing directory can be made, the
      temporary file written in full, and renamed. */
  datatype Disk = Disk(makes: bool, writes: bool, renames: bool)

  ghost predicate IsOldest(d: Dir, k: nat) {
    k in d.saves && forall j | j in d.saves :: k <= j
  }

  ghost predicate IsNewest(d: Dir, k: nat) {
    k in d.saves && forall j | j in d.saves :: j <= k
  }

  /** The least and greatest numbers; none, if there is no save. */
  datatype Range = NoSaves | Range(oldest: nat, newest: nat)

  ghost predicate IsRange(d: Dir, r: Range) {
    if r.NoSaves? then d.saves == map[] else IsOldest(d, r.oldest) && IsNewest(d, r.newest)
  }

  function NextNumber(r: Range): nat {
    if r.NoSaves? then 1 else r.newest + 1
  }

  /** The tree that is written: boot 0 gets the time of the save as its crash time. */
  function SnapshotOf(total: int, boots: seq<Boot>, now: Time): Snapshot {
    Snapshot(total, if boots == [] then [] else [boots[0].(crashTime := now)] + boots[1..])
  }

  // ----- the directory's states while a save is written -----

  function AfterRemoval(d: Dir, r: Range, removeOld: bool): Dir {
    if r.Range? && r.oldest != r.newest && removeOld then d.(saves := d.saves - {r.oldest}) else d
  }

  /** Every state the directory goes through, the one before included.  A crash leaves it
      in one of them. */
  function WriteStates(d: Dir, r: Range, removeOld: bool, s: Snapshot, disk: Disk): (states: seq<Dir>)
    ensures states != [] && states[0] == d
  {
    var k, removed := NextNumber(r), AfterRemoval(d, r, removeOld);
    [d] + (if removed == d then [] else [removed])
        + (if !d.present then (if disk.makes then [removed.(present := true)] else [])
           else PartStates(removed, k, s, disk))
  }

  function PartStates(d: Dir, k: nat, s: Snapshot, disk: Disk): seq<Dir> {
    var torn, whole := d.(parts := d.parts[k := Torn]), d.(parts := d.parts[k := Whole(s)]);
    [torn] + (if !disk.writes then []
              else [whole] + (if disk.renames then [Dir(true, d.saves[k := s], d.parts - {k})] else []))
  }

  /** The directory when the write is over. */
  function Written(d: Dir, r: Range, removeOld: bool, s: Snapshot, disk: Disk): Dir {
    var states := WriteStates(d, r, removeOld, s, disk);
    states[|states| - 1]
  }

  // ----- crash consistency -----

  /** Wherever writing stops, a save that was there before is not lost: the newest save is
      still the old one, or wholly the new one under the next number. */
  lemma {:induction false} CrashKeepsASave(d: Dir, r: Range, removeOld: bool, s: Snapshot, disk: Disk, i: nat)
    requires IsRange(d, r) && r.Range? && d.present
    requires i < |WriteStates(d, r, removeOld, s, disk)|
    ensures var e := WriteStates(d, r, removeOld, s, disk)[i];
      || (IsNewest(e, r.newest) && e.saves[r.newest] == d.saves[r.newest])
      || (IsNewest(e, NextNumber(r)) && e.saves[NextNumber(r)] == s)
  {
  }

  /** A write adds the new save, as the newest, exactly if the directory was there and the
      file could be written and renamed; otherwise it adds none. */
  lemma {:induction false} WrittenExactlyIf(d: Dir, r: Range, removeOld: bool, s: Snapshot, disk: Disk)
    requires IsRange(d, r)
    ensures var e, k := Written(d, r, removeOld, s, disk), NextNumber(r);
      && (k in e.saves <==> d.present && disk.writes && disk.renames)
      && (k in e.saves ==> IsNewest(e, k) && e.saves[k] == s)
      && (k !in e.saves ==> e.saves == AfterRemoval(d, r, removeOld).saves)
  {
  }

  /** While a save is written, no other save is lost than the oldest of several, and that only with
      removal on; what is kept is kept as it was, and nothing but the new save is added. */
  lemma {:induction false} OldSavesAreKept(d: Dir, r: Range, removeOld: bool, s: Snapshot, disk: Disk, i: nat, k: nat)
    requires IsRange(d, r) && i < |WriteStates(d, r, removeOld, s, disk)|
    ensures var e := WriteStates(d, r, removeOld, s, disk)[i];
      && (k in d.saves && !(removeOld && IsOldest(d, k) && !IsNewest(d, k)) ==>
            k in e.saves && e.saves[k] == d.saves[k])
      && (k in e.saves && k !in d.saves ==> k == NextNumber(r) && e.saves[k] == s)
  {
    StateIsOneOf(d, r, removeOld, s, disk, i);
  }

  /** With removal on, the oldest of several is gone when the write is over. */
  lemma {:induction false} OldestIsRemoved(d: Dir, r: Range, s: Snapshot, disk: Disk, k: nat)
    requires IsRange(d, r) && IsOldest(d, k) && !IsNewest(d, k)
    ensures k !in Written(d, r, true, s, disk).saves
  {
  }

  /** The temporary file is left behind, in whatever state, exactly if it was begun and not renamed; a
      missing directory is there afterwards exactly if it could be made. */
  lemma {:induction false} TemporaryFileIsLeft(d: Dir, r: Range, removeOld: bool, s: Snapshot, disk: Disk)
    requires IsRange(d, r)
    ensures var e, k := Written(d, r, removeOld, s, disk), NextNumber(r);
      && (e.present <==> d.present || disk.makes)
      && (d.present ==> (k in e.parts <==> !(disk.writes && disk.renames)))
      && (d.present && k in e.parts ==> e.parts[k] == if disk.writes then Whole(s) else Torn)
      && (!d.present ==> e.parts == d.parts)
      && forall j | j != k :: (j in e.parts <==> j in d.parts) && (j in d.parts ==> e.parts[j] == d.parts[j])
  {
  }

  /** The saves are at every point the old ones, the ones left after the removal, or
      those and the new one. */
  lemma {:induction false} StateIsOneOf(d: Dir, r: Range, removeOld: bool, s: Snapshot, disk: Disk, i: nat)
    requires i < |WriteStates(d, r, removeOld, s, disk)|
    ensures var e, removed := WriteStates(d, r, removeOld, s, disk)[i].saves, AfterRemoval(d, r, removeOld).saves;
      e == d.saves || e == removed || e == removed[NextNumber(r) := s]
  {
  }

  /** No state has more saves than two, or than there were before, if old ones are removed. */
  lemma {:induction false} SavesStayFew(d: Dir, r: Range, s: Snapshot, disk: Disk, i: nat)
    requires IsRange(d, r) && i < |WriteStates(d, r, true, s, disk)|
    ensures |WriteStates(d, r, true, s, disk)[i].saves.Keys| <= if |d.saves.Keys| <= 2 then 2 else |d.saves.Keys|
  {
    StateIsOneOf(d, r, true, s, disk, i);
    SizeAfterRemoval(d, r);
    var removed := AfterRemoval(d, r, true).saves;
    assert removed[NextNumber(r) := s].Keys == removed.Keys + {NextNumber(r)};
  }

  lemma SizeAfterRemoval(d: Dir, r: Range)
    requires IsRange(d, r)
    ensures |AfterRemoval(d, r, true).saves.Keys| <= if |d.saves.Keys| <= 1 then 1 else |d.saves.Keys| - 1
  {
  }
}
