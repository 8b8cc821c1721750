/** The save manager as an object working on a directory object: each method is proved
    against the functions of SaveManager and BootHistory. */
module SaveManagerClass {
  import opened SaveManager
  import opened Options
  import opened BootHistory

  /** The file system's part: each operation is one step that a crash cannot divide, and
      trace records the states after each. */
  class SaveDirectory {
    var now: Dir
    ghost var trace: seq<Dir>

    constructor (d: Dir)
      ensures now == d && trace == [d]
    {
      now, trace := d, [d];
    }

    method Remove(k: nat)
      modifies this
      ensures now == old(now).(saves := old(now).saves - {k})
      ensures trace == old(trace) + [now]
    {
      now := now.(saves := now.saves - {k});
      trace := trace + [now];
    }

    method MakeDirectory(makes: bool)
      modifies this
      ensures now == if makes then old(now).(present := true) else old(now)
      ensures trace == old(trace) + if makes then [now] else []
    {
      if makes {
        now := now.(present := true);
        trace := trace + [now];
      }
    }

    /** The file exists, torn, before it is whole. */
    method SavePart(k: nat, s: Snapshot, writes: bool)
      modifies this
      ensures now == old(now).(parts := old(now).parts[k := if writes then Whole(s) else Torn])
      ensures trace == old(trace) + [old(now).(parts := old(now).parts[k := Torn])] + if writes then [now] else []
    {
      var torn := now.(parts := now.parts[k := Torn]);
      trace := trace + [torn];
      if writes {
        now := now.(parts := now.parts[k := Whole(s)]);
        trace := trace + [now];
      } else {
        now := torn;
      }
    }

    method Rename(k: nat, renames: bool)
      requires k in now.parts && now.parts[k].Whole? && now.present
      modifies this
      ensures now == if renames then Dir(true, old(now).saves[k := old(now).parts[k].snapshot], old(now).parts - {k})
        else old(now)
      ensures trace == old(trace) + if renames then [now] else []
    {
      if renames {
        now := Dir(true, now.saves[k := now.parts[k].snapshot], now.parts - {k});
        trace := trace + [now];
      }
    }
  }

  class SimpleSaveManager {
    const directory: SaveDirectory
    var data: seq<Boot>
    var numTotalBoots: int
    var haveRead: bool
    var useTime: bool
    var removeOldSaves: bool
    var queuedCommands: seq<nat>
    var succeeded: seq<nat>

    constructor (directory: SaveDirectory)
      ensures this.directory == directory && !haveRead && removeOldSaves && queuedCommands == succeeded == []
    {
      this.directory := directory;
      data, numTotalBoots := [], 0;
      haveRead, useTime, removeOldSaves := false, true, true;
      queuedCommands, succeeded := [], [];
    }

    /** Looks at the directory's entries in whatever order they come. */
    method FindOldestNewestFiles() returns (r: Range)
      ensures IsRange(directory.now, r)
    {
      r := NoSaves;
      var rest := directory.now.saves.Keys;
      while rest != {}
        invariant rest <= directory.now.saves.Keys
        invariant if r.NoSaves? then rest == directory.now.saves.Keys
                  else
                    && r.oldest in directory.now.saves && r.newest in directory.now.saves
                    && forall j | j in directory.now.saves && j !in rest :: r.oldest <= j <= r.newest
        decreases |rest|
      {
        var k :| k in rest;
        rest := rest - {k};
        r := if r.NoSaves? then Range(k, k)
             else Range(if k < r.oldest then k else r.oldest, if k > r.newest then k else r.newest);
      }
      assert r.NoSaves? ==> directory.now.saves == map[];
    }

    /** Works once only. */
    method LoadCrashes(now: Time, parses: bool)
      modifies this`data, this`numTotalBoots, this`haveRead
      ensures haveRead
      ensures old(haveRead) ==> data == old(data) && numTotalBoots == old(numTotalBoots)
      ensures !old(haveRead) ==> forall r | IsRange(directory.now, r) ::
        Snapshot(numTotalBoots, data) ==
          Loaded(directory.now, r, if useTime then now else None, parses, old(numTotalBoots))
    {
      if haveRead {
        return;
      }
      haveRead := true;
      data := [ThisBoot(if useTime then now else None)];
      var oldestNewest := FindOldestNewestFiles();
      if oldestNewest.NoSaves? {
        numTotalBoots := 1;
      } else if parses {
        var root := directory.now.saves[oldestNewest.newest];
        numTotalBoots := root.total + 1;
        var i := 0;
        while i < |root.boots|
          invariant 0 <= i <= |root.boots| && haveRead && numTotalBoots == root.total + 1
          invariant data == [ThisBoot(if useTime then now else None)] + root.boots[..i]
        {
          data := data + [root.boots[i]];
          i := i + 1;
        }
        assert root.boots[..i] == root.boots;
      }
      forall r | IsRange(directory.now, r) ensures r == oldestNewest {
        OneRange(directory.now, r, oldestNewest);
      }
    }

    /** Queues the command, and writes. */
    method Enqueue(cmd: nat, now: Time, disk: Disk) returns (ok: bool)
      requires directory.trace != [] && directory.trace[|directory.trace| - 1] == directory.now
      modifies this`queuedCommands, this`succeeded, directory
      ensures queuedCommands == [] && succeeded == old(succeeded) + old(queuedCommands) + [cmd]
      ensures ok <==> old(directory.now.present) && disk.writes
    {
      queuedCommands := queuedCommands + [cmd];
      ghost var r;
      ok, r := WriteOut(now, disk);
      assert old(succeeded) + (old(queuedCommands) + [cmd]) == old(succeeded) + old(queuedCommands) + [cmd];
    }

    /** The directory passes through exactly the states of WriteStates.  The commands are
        reported successful whether or not the save was made; and true is returned when the
        temporary file was written, whether or not it could be renamed. */
    method WriteOut(now: Time, disk: Disk) returns (ok: bool, ghost r: Range)
      modifies this`queuedCommands, this`succeeded, directory
      ensures ok <==> old(directory.now.present) && disk.writes
      ensures IsRange(old(directory.now), r)
      ensures old(directory.trace) <= directory.trace
      ensures var states := WriteStates(old(directory.now), r, removeOldSaves,
                                        SnapshotOf(numTotalBoots, data, if useTime then now else None), disk);
        && [old(directory.now)] + directory.trace[|old(directory.trace)|..] == states
        && directory.now == states[|states| - 1]
      ensures queuedCommands == [] && succeeded == old(succeeded) + old(queuedCommands)
    {
      var oldestNewest := FindOldestNewestFiles();
      r := oldestNewest;
      ok := ReplaceOldest(oldestNewest, now, disk);
      SucceedCommands();
    }

    method ReplaceOldest(r: Range, now: Time, disk: Disk) returns (ok: bool)
      requires IsRange(directory.now, r)
      modifies directory
      ensures ok <==> old(directory.now.present) && disk.writes
      ensures old(directory.trace) <= directory.trace
      ensures var states := WriteStates(old(directory.now), r, removeOldSaves,
                                        SnapshotOf(numTotalBoots, data, if useTime then now else None), disk);
        && [old(directory.now)] + directory.trace[|old(directory.trace)|..] == states
        && directory.now == states[|states| - 1]
    {
      ghost var s := SnapshotOf(numTotalBoots, data, if useTime then now else None);
      RemoveOldest(r);
      ok := WriteToFile(NextNumber(r), now, disk);
      TraceAssembles(old(directory.now), r, removeOldSaves, s, disk, old(directory.trace), directory.trace,
        directory.now);
    }

    /** Never removes the only save. */
    method RemoveOldest(r: Range)
      requires IsRange(directory.now, r)
      modifies directory
      ensures directory.now == AfterRemoval(old(directory.now), r, removeOldSaves)
      ensures directory.trace == old(directory.trace) + if directory.now == old(directory.now) then []
        else [directory.now]
    {
      if r.Range? && r.oldest != r.newest && removeOldSaves {
        directory.Remove(r.oldest);
      }
    }

    /** A missing directory is made, but then nothing is written. */
    method WriteToFile(k: nat, now: Time, disk: Disk) returns (ok: bool)
      modifies directory
      ensures ok <==> old(directory.now.present) && disk.writes
      ensures var was, s := old(directory.now), SnapshotOf(numTotalBoots, data, if useTime then now else None);
        && directory.trace == old(directory.trace) + FileStates(was, k, s, disk)
        && directory.now == Last(was, FileStates(was, k, s, disk))
    {
      var tree := BuildTree(if useTime then now else None);
      if !directory.now.present {
        directory.MakeDirectory(disk.makes);
        assert FileStates(old(directory.now), k, tree, disk) == if disk.makes then [directory.now] else [];
        return false;
      }
      directory.SavePart(k, tree, disk.writes);
      if disk.writes {
        directory.Rename(k, disk.renames);
        assert disk.renames ==> directory.now.parts == old(directory.now).parts - {k};
        assert directory.trace == old(directory.trace) + PartStates(old(directory.now), k, tree, disk);
        return true;
      }
      return false;
    }

    /** Copies the boots into a tree, with the time of the save as boot 0's crash time. */
    method BuildTree(now: Time) returns (tree: Snapshot)
      ensures tree == SnapshotOf(numTotalBoots, data, now)
    {
      var boots: seq<Boot> := [];
      var i := 0;
      while i < |data|
        invariant 0 <= i <= |data|
        invariant boots == SnapshotOf(numTotalBoots, data[..i], now).boots
      {
        if i == 0 {
          boots := boots + [data[i].(crashTime := now)];
        } else {
          boots := boots + [data[i]];
        }
        i := i + 1;
      }
      assert data[..i] == data;
      return Snapshot(numTotalBoots, boots);
    }

    method SucceedCommands()
      modifies this`queuedCommands, this`succeeded
      ensures queuedCommands == [] && succeeded == old(succeeded) + old(queuedCommands)
    {
      succeeded := succeeded + queuedCommands;
      queuedCommands := [];
    }
  }

  /** The states writeToFile adds. */
  function FileStates(d: Dir, k: nat, s: Snapshot, disk: Disk): seq<Dir> {
    if d.present then PartStates(d, k, s, disk) else if disk.makes then [d.(present := true)] else []
  }

  function Last(d: Dir, states: seq<Dir>): Dir {
    if states == [] then d else states[|states| - 1]
  }

  /** Removal and file operations together leave the trace and the directory as WriteStates says. */
  lemma TraceAssembles(d: Dir, r: Range, removeOld: bool, s: Snapshot, disk: Disk, before: seq<Dir>, after: seq<Dir>,
                       now: Dir)
    requires var removed := AfterRemoval(d, r, removeOld);
      && after == before + (if removed == d then [] else [removed]) + FileStates(removed, NextNumber(r), s, disk)
      && now == Last(removed, FileStates(removed, NextNumber(r), s, disk))
    ensures var states := WriteStates(d, r, removeOld, s, disk);
      && before <= after && [d] + after[|before|..] == states && now == states[|states| - 1]
  {
  }

  lemma OneRange(d: Dir, r: Range, q: Range)
    requires IsRange(d, r) && IsRange(d, q)
    ensures r == q
  {
  }
}
