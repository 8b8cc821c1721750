/** The start and end times of a node's states: a linked list of the timepoints the plan
    asks for, updated on every change of state. */
module Timepoints {
  import opened NodeConstants
  import opened Options

  /** A timepoint's value; an unknown one has none. */
  datatype Stamp = Stamp(state: NodeState, isEnd: bool, value: Option<real>)

  /** The timepoint is the end of the state left, or the start of the one entered. */
  predicate Stamped(state: NodeState, isEnd: bool, from: NodeState, to: NodeState) {
    if isEnd then state == from else state == to
  }

  /** What one transition does to a timepoint. */
  function Logged(p: Stamp, from: NodeState, to: NodeState, time: real): Stamp {
    if Stamped(p.state, p.isEnd, from, to) then p.(value := Some(time))
    else if to == Inactive then p.(value := None)
    else p
  }

  class NodeTimepointValue {
    const state: NodeState
    const isEnd: bool
    var time: real
    var known: bool
    var next: NodeTimepointValue?

    constructor (state: NodeState, isEnd: bool, next: NodeTimepointValue?)
      ensures this.state == state && this.isEnd == isEnd && this.next == next
      ensures Value() == Stamp(state, isEnd, None)
    {
      this.state, this.isEnd, this.next := state, isEnd, next;
      time, known := 0.0, false;
    }

    ghost function Value(): Stamp
      reads this
    {
      Stamp(state, isEnd, if known then Some(time) else None)
    }

    method SetValue(t: real)
      modifies this`time, this`known
      ensures Value() == Stamp(state, isEnd, Some(t))
    {
      time, known := t, true;
    }

    method Reset()
      modifies this`known
      ensures Value() == Stamp(state, isEnd, None)
    {
      known := false;
    }
  }

  class TimepointLog {
    var state: NodeState
    var currentStateStartTime: real
    var timepoints: NodeTimepointValue?
    ghost var list: seq<NodeTimepointValue>

    constructor ()
      ensures Valid() && list == [] && state == Inactive && currentStateStartTime == 0.0
    {
      state, currentStateStartTime, timepoints, list := Inactive, 0.0, null, [];
    }

    /** list is what the links lead through. */
    ghost predicate Chain()
      reads this, list
    {
      && timepoints == (if list == [] then null else list[0])
      && (list != [] ==> list[|list| - 1].next == null)
      && (forall i, j | 0 <= i < |list| && j == i + 1 && j < |list| :: list[i].next == list[j])
      && (forall i, j | 0 <= i < j < |list| :: list[i] != list[j])
    }

    /** No state has two starts or two ends. */
    ghost predicate Valid()
      reads this, list
    {
      Chain() && forall i, j | 0 <= i < j < |list| :: list[i].state != list[j].state || list[i].isEnd != list[j].isEnd
    }

    /** The timepoint for a start or end; a new one goes to the front of the list. */
    method EnsureTimepoint(s: NodeState, isEnd: bool) returns (tp: NodeTimepointValue)
      requires Valid()
      modifies this`timepoints, this`list
      ensures Valid() && tp in list && tp.state == s && tp.isEnd == isEnd
      ensures if exists e :: e in old(list) && e.state == s && e.isEnd == isEnd then list == old(list)
              else list == [tp] + old(list) && tp.Value() == Stamp(s, isEnd, None)
    {
      var found := FindTimepoint(s, isEnd);
      if found != null {
        return found;
      }
      tp := new NodeTimepointValue(s, isEnd, timepoints);
      timepoints, list := tp, [tp] + list;
    }

    method FindTimepoint(s: NodeState, isEnd: bool) returns (tp: NodeTimepointValue?)
      requires Chain()
      ensures if tp == null then forall e | e in list :: !(e.state == s && e.isEnd == isEnd)
              else tp in list && tp.state == s && tp.isEnd == isEnd
    {
      tp := timepoints;
      ghost var i := 0;
      while tp != null
        invariant 0 <= i <= |list| && tp == (if i < |list| then list[i] else null)
        invariant forall j | 0 <= j < i :: !(list[j].state == s && list[j].isEnd == isEnd)
        decreases |list| - i
      {
        if s == tp.state && isEnd == tp.isEnd {
          return tp;
        }
        tp := tp.next;
        i := i + 1;
      }
    }

    method LogTransition(time: real, newState: NodeState)
      requires Valid()
      modifies this`currentStateStartTime, list`time, list`known
      ensures Valid() && currentStateStartTime == time
      ensures forall tp | tp in list :: tp.Value() == Logged(old(tp.Value()), state, newState, time)
    {
      currentStateStartTime := time;
      if newState == Inactive {
        ResetAll();
      }
      StampAll(time, newState);
    }

    method StampAll(time: real, newState: NodeState)
      requires Chain()
      modifies list`time, list`known
      ensures Chain()
      ensures forall tp | tp in list ::
        tp.Value() == if Stamped(tp.state, tp.isEnd, state, newState) then old(tp.Value()).(value := Some(time))
          else old(tp.Value())
    {
      var tp := timepoints;
      ghost var i := 0;
      while tp != null
        invariant 0 <= i <= |list| && tp == (if i < |list| then list[i] else null)
        invariant forall j | 0 <= j < i && Stamped(list[j].state, list[j].isEnd, state, newState) ::
          list[j].known && list[j].time == time
        invariant forall j | 0 <= j < |list| && (i <= j || !Stamped(list[j].state, list[j].isEnd, state, newState)) ::
          list[j].known == old(list[j].known) && list[j].time == old(list[j].time)
        decreases |list| - i
      {
        if (tp.state == state && tp.isEnd) || (tp.state == newState && !tp.isEnd) {
          tp.SetValue(time);
        }
        tp := tp.next;
        i := i + 1;
      }
    }

    method ResetAll()
      requires Chain()
      modifies list`known
      ensures Chain()
      ensures forall tp | tp in list :: tp.Value() == Stamp(tp.state, tp.isEnd, None)
    {
      var tp := timepoints;
      ghost var i := 0;
      while tp != null
        invariant 0 <= i <= |list| && tp == (if i < |list| then list[i] else null)
        invariant forall j | 0 <= j < i :: list[j].Value() == Stamp(list[j].state, list[j].isEnd, None)
        decreases |list| - i
      {
        tp.Reset();
        tp := tp.next;
        i := i + 1;
      }
    }

    /** setState; entering the state the node is in does nothing. */
    method SetState(newState: NodeState, time: real)
      requires Valid()
      modifies this`state, this`currentStateStartTime, list`time, list`known
      ensures Valid() && state == newState
      ensures currentStateStartTime == if old(state) == newState then old(currentStateStartTime) else time
      ensures forall tp | tp in list ::
        tp.Value() == if old(state) == newState then old(tp.Value())
          else Logged(old(tp.Value()), old(state), newState, time)
    {
      if newState != state {
        LogTransition(time, newState);
        state := newState;
      }
    }

    /** The start of the current state, or what the timepoint says that records it. */
    method GetStateStartTime(s: NodeState) returns (r: Option<real>)
      requires Valid()
      ensures s == state ==> r == Some(currentStateStartTime)
      ensures s != state ==> forall tp | tp in list && tp.state == s && !tp.isEnd :: r == tp.Value().value
      ensures s != state && (forall tp | tp in list :: tp.state != s || tp.isEnd) ==> r == None
    {
      if s == state {
        return Some(currentStateStartTime);
      }
      var tp := FindTimepoint(s, false);
      if tp == null {
        return None;
      }
      return if tp.known then Some(tp.time) else None;
    }
  }

  // ----- histories -----

  /** A change of state; a history is what a node has been through since it was INACTIVE. */
  datatype Change = Change(time: real, to: NodeState)

  function StateAfter(run: seq<Change>): NodeState {
    if run == [] then Inactive else run[|run| - 1].to
  }

  /** Times never decrease, and no change stays in the same state. */
  ghost predicate IsHistory(run: seq<Change>) {
    && (forall i, j | 0 <= i < j < |run| :: run[i].time <= run[j].time)
    && (forall i | 0 <= i < |run| :: run[i].to != StateAfter(run[..i]))
  }

  /** A timepoint after a history. */
  function Replay(state: NodeState, isEnd: bool, run: seq<Change>): (p: Stamp)
    ensures p.state == state && p.isEnd == isEnd
  {
    if run == [] then Stamp(state, isEnd, None)
    else
      var before := run[..|run| - 1];
      Logged(Replay(state, isEnd, before), StateAfter(before), run[|run| - 1].to, run[|run| - 1].time)
  }

  /** Change i stamps the timepoint: it leaves the state, or it enters it. */
  ghost predicate Stamps(state: NodeState, isEnd: bool, run: seq<Change>, i: int)
    requires 0 <= i < |run|
  {
    if isEnd then StateAfter(run[..i]) == state else run[i].to == state
  }

  /** Change i is the last that stamps the timepoint, and none after it entered INACTIVE. */
  ghost predicate StampedBy(state: NodeState, isEnd: bool, run: seq<Change>, i: int) {
    && 0 <= i < |run| && Stamps(state, isEnd, run, i)
    && forall j | i < j < |run| :: !Stamps(state, isEnd, run, j) && run[j].to != Inactive
  }

  /** A timepoint is known exactly if some change has stamped it since the last return to
      INACTIVE, and then holds the time of the last such change. */
  lemma {:induction false} ReplayIsLastStamp(state: NodeState, isEnd: bool, run: seq<Change>, t: real)
    ensures Replay(state, isEnd, run).value == Some(t)
      <==> exists i {:trigger StampedBy(state, isEnd, run, i)} :: StampedBy(state, isEnd, run, i) && run[i].time == t
    decreases |run|
  {
    if run != [] {
      var last := |run| - 1;
      var before := run[..last];
      ReplayIsLastStamp(state, isEnd, before, t);
      assert StateAfter(run[..last]) == StateAfter(before);
      if Stamps(state, isEnd, run, last) {
        assert StampedBy(state, isEnd, run, last);
      } else if run[last].to != Inactive {
        forall i | 0 <= i < last ensures StampedBy(state, isEnd, run, i) <==> StampedBy(state, isEnd, before, i) {
          SameStamps(state, isEnd, run, i);
        }
      }
    }
  }

  lemma SameStamps(state: NodeState, isEnd: bool, run: seq<Change>, i: nat)
    requires i < |run| - 1
    requires !Stamps(state, isEnd, run, |run| - 1) && run[|run| - 1].to != Inactive
    ensures StampedBy(state, isEnd, run, i) <==> StampedBy(state, isEnd, run[..|run| - 1], i)
  {
    var before := run[..|run| - 1];
    forall j | 0 <= j < |before| ensures Stamps(state, isEnd, run, j) == Stamps(state, isEnd, before, j) {
      assert run[..j] == before[..j];
    }
  }

  /** The current state's start, if known, is the time of the last change. */
  lemma {:induction false} CurrentStartIsLastChange(run: seq<Change>)
    requires run != []
    ensures Replay(StateAfter(run), false, run).value == Some(run[|run| - 1].time)
  {
  }

  /** The end of a state that has just been left is the start of the one entered. */
  lemma {:induction false} EndMeetsNextStart(run: seq<Change>)
    requires run != []
    ensures Replay(StateAfter(run[..|run| - 1]), true, run).value == Replay(StateAfter(run), false, run).value
         == Some(run[|run| - 1].time)
  {
  }

  lemma {:induction false} StampsAreInThePast(state: NodeState, isEnd: bool, run: seq<Change>)
    requires IsHistory(run) && run != []
    ensures Replay(state, isEnd, run).value.Some? ==> Replay(state, isEnd, run).value.value <= run[|run| - 1].time
  {
    var v := Replay(state, isEnd, run).value;
    if v.Some? {
      ReplayIsLastStamp(state, isEnd, run, v.value);
    }
  }

  lemma PrefixIsHistory(run: seq<Change>)
    requires IsHistory(run) && run != []
    ensures IsHistory(run[..|run| - 1])
  {
  }

  /** Across resets and repeats, a state that is not current and has both its times known
      did not end before it started. */
  lemma {:induction false} StartNotAfterEnd(state: NodeState, run: seq<Change>)
    requires IsHistory(run) && state != StateAfter(run)
    requires Replay(state, false, run).value.Some? && Replay(state, true, run).value.Some?
    ensures Replay(state, false, run).value.value <= Replay(state, true, run).value.value
    decreases |run|
  {
    if run != [] {
      var before := run[..|run| - 1];
      PrefixIsHistory(run);
      if StateAfter(before) == state {
        StampsAreInThePast(state, false, run);
      } else {
        StartNotAfterEnd(state, before);
      }
    }
  }
}
