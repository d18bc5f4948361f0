/**
 The slaves' half of assigning key space, and the tablets that a slave keeps for its ranges.
*/
module SlaveKeySpaceManagers {
  import opened Wrappers
  import opened Entries
  import opened KeySpaceRanges
  import AsyncQueues

  const WAIT_FOR_PAXOS := 100

  datatype SlaveState = SlaveState(ranges: seq<Range>, generation: nat)

  const INIT_SLAVE := SlaveState([], 0)

  // One run of the task for a master's selection.
  datatype SlaveAction = Ignore | Adopt(entry: Entry) | Confirm(generation: nat)

  /** The log callback; None stands for a failed assertion. */
  function OnChanged(s: SlaveState, newRanges: seq<Range>, generation: nat): Option<SlaveState> {
    if generation == s.generation + 1 then Some(SlaveState(newRanges, generation)) else None
  }

  function OnSlaveEntry(s: SlaveState, e: Entry): Option<SlaveState> {
    match e
    case Changed(newRanges, generation) => OnChanged(s, newRanges, generation)
    case _ => Some(s)
  }

  function KeySpaceChangeRun(s: SlaveState, ranges: seq<Range>, generation: nat): SlaveAction {
    if s.generation + 1 < generation then Ignore
    else if s.generation + 1 == generation then Adopt(Changed(ranges, generation))
    else if s.generation == generation then Confirm(generation)
    else Ignore
  }

  // ----- Tablets -----

  function Elements(ranges: seq<Range>): set<Range> {
    set r | r in ranges
  }

  /** The first tablet in the order of iteration whose range has the key. */
  function RouteIn(order: seq<Range>, key: Key): Option<Range> {
    if order == [] then None
    else if Within(order[0], key) then Some(order[0])
    else RouteIn(order[1..], key)
  }

  lemma {:induction false} RouteFinds(order: seq<Range>, key: Key)
    ensures RouteIn(order, key).None? ==> forall r :: r in order ==> !Within(r, key)
    ensures RouteIn(order, key).Some? ==> RouteIn(order, key).value in order && Within(RouteIn(order, key).value, key)
  {
    if order != [] {
      RouteFinds(order[1..], key);
      assert order == [order[0]] + order[1..];
    }
  }

  /** Of the tablets that have the key, the first in the order of iteration is taken. */
  lemma {:induction false} RouteFindsFirst(order: seq<Range>, key: Key, i: nat)
    requires i < |order| && Within(order[i], key) && forall j :: 0 <= j < i ==> !Within(order[j], key)
    ensures RouteIn(order, key) == Some(order[i])
    decreases i
  {
    if i > 0 {
      RouteFindsFirst(order[1..], key, i - 1);
    }
  }

  class TabletParticipantManager {
    var tablets: set<Range>

    constructor ()
      ensures tablets == {}
    {
      tablets := {};
    }

    /** Adds a tablet for each range that has none yet. */
    method HandleKeySpaceChange(ranges: seq<Range>)
      modifies this
      ensures tablets == old(tablets) + Elements(ranges)
    {
      for i := 0 to |ranges|
        invariant tablets == old(tablets) + Elements(ranges[..i])
      {
        assert Elements(ranges[..i + 1]) == Elements(ranges[..i]) + {ranges[i]};
        if ranges[i] !in tablets {
          tablets := tablets + {ranges[i]};
        }
      }
      assert ranges[..|ranges|] == ranges;
    }

    /** `order` is how the hash map happens to be iterated; None is answered with an error. */
    method HandleClientRequest(order: seq<Range>, key: Key) returns (tablet: Option<Range>)
      requires forall r :: r in order <==> r in tablets
      ensures tablet == RouteIn(order, key)
    {
      var rest := order;
      while rest != []
        invariant RouteIn(order, key) == RouteIn(rest, key)
      {
        if Within(rest[0], key) {
          return Some(rest[0]);
        }
        rest := rest[1..];
      }
      tablet := None;
    }
  }

  class SlaveKeySpaceManager {
    var state: SlaveState
    const participants: TabletParticipantManager

    constructor (participants: TabletParticipantManager)
      ensures state == INIT_SLAVE && this.participants == participants
    {
      state, this.participants := INIT_SLAVE, participants;
    }

    /** Returns the generation to confirm to the masters. */
    method OnChangedEntry(newRanges: seq<Range>, generation: nat) returns (confirm: Option<nat>)
      modifies this, participants
      ensures
        var after := OnChanged(old(state), newRanges, generation);
        && state == (if after.Some? then after.value else old(state))
        && confirm == (if after.Some? then Some(generation) else None)
        && participants.tablets == old(participants.tablets) + if after.Some? then Elements(newRanges) else {}
    {
      confirm := None;
      if generation != state.generation + 1 {
        return;
      }
      var ranges: seq<Range> := [];
      for i := 0 to |newRanges|
        invariant ranges == newRanges[..i]
      {
        ranges := ranges + [newRanges[i]];
      }
      state := SlaveState(ranges, generation);
      participants.HandleKeySpaceChange(ranges);
      confirm := Some(generation);
    }

    method RunKeySpaceChange(ranges: seq<Range>, generation: nat) returns (action: SlaveAction, wait: int)
      ensures action == KeySpaceChangeRun(state, ranges, generation)
      ensures wait == if action.Adopt? then WAIT_FOR_PAXOS else AsyncQueues.TERMINATE
    {
      wait := AsyncQueues.TERMINATE;
      if state.generation + 1 < generation {
        action := Ignore;
      } else if state.generation + 1 == generation {
        action := Adopt(Changed(ranges, generation));
        wait := WAIT_FOR_PAXOS;
      } else if state.generation == generation {
        action := Confirm(generation);
      } else {
        action := Ignore;
      }
    }
  }
}
