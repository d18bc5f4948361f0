/**
 The masters' half of assigning key space: the state of each slave group, the two log callbacks,
 and the tasks that answer clients and propose new assignments.
*/
module KeySpaceManagers {
  import opened Wrappers
  import opened Entries
  import opened KeySpaceRanges
  import AsyncQueues

  const RETRY_LIMIT := 3
  const WAIT := 100

  // KeySpace is the steady state; in NewKeySpace the slave group has not yet confirmed newRanges.
  datatype GroupState =
    | KeySpace(ranges: seq<Range>, generation: nat)
    | NewKeySpace(ranges: seq<Range>, newRanges: seq<Range>, generation: nat)

  type MasterState = map<GroupId, GroupState>

  // What a callback for a NewKeySpaceSelected entry sends to the slave group.
  datatype SelectedMsg = SelectedMsg(group: GroupId, ranges: seq<Range>, generation: nat)

  // One run of a find-key task.
  datatype FindAction =
    | Answer(group: GroupId)
    | Refuse
    | Resend(msg: SelectedMsg)
    | WaitForFree
    | Assign(entry: Entry)

  // ----- Callbacks -----

  /** None stands for a failed assertion. */
  function OnSelected(state: MasterState, group: GroupId, newRanges: seq<Range>, generation: nat): Option<MasterState> {
    if group in state && state[group].KeySpace? && state[group].generation + 1 == generation
    then Some(state[group := NewKeySpace(state[group].ranges, newRanges, generation)])
    else None
  }

  function OnCommit(state: MasterState, group: GroupId, generation: nat): Option<MasterState> {
    if group in state && state[group].NewKeySpace? && state[group].generation == generation
    then Some(state[group := KeySpace(state[group].newRanges, generation)])
    else None
  }

  function OnMasterEntry(state: MasterState, e: Entry): Option<MasterState> {
    match e
    case Selected(group, newRanges, generation) => OnSelected(state, group, newRanges, generation)
    case Commit(group, generation) => OnCommit(state, group, generation)
    case _ => Some(state)
  }

  // ----- The find-key task -----

  /** The ranges a group has or is getting. */
  function CurrentRanges(s: GroupState): seq<Range> {
    if s.KeySpace? then s.ranges else s.newRanges
  }

  /** What the loop over the groups does at one of them, if anything. */
  function AtGroup(state: MasterState, group: GroupId, key: Key): Option<FindAction>
    requires group in state
  {
    if !Covers(CurrentRanges(state[group]), key) then None
    else if state[group].KeySpace? then Some(Answer(group))
    else Some(Resend(SelectedMsg(group, state[group].newRanges, state[group].generation)))
  }

  function Search(state: MasterState, order: seq<GroupId>, key: Key): Option<FindAction>
    requires forall g :: g in order ==> g in state
  {
    if order == [] then None
    else if AtGroup(state, order[0], key).Some? then AtGroup(state, order[0], key)
    else Search(state, order[1..], key)
  }

  function FirstFree(state: MasterState, order: seq<GroupId>): Option<GroupId>
    requires forall g :: g in order ==> g in state
    ensures FirstFree(state, order).Some? ==>
      FirstFree(state, order).value in order && state[FirstFree(state, order).value].KeySpace?
    ensures FirstFree(state, order).None? ==> forall g :: g in order ==> state[g].NewKeySpace?
  {
    if order == [] then None
    else if state[order[0]].KeySpace? then Some(order[0])
    else FirstFree(state, order[1..])
  }

  /** The task, given the order in which the hash map is iterated. */
  function FindKeyRun(state: MasterState, order: seq<GroupId>, key: Key, retries: nat): FindAction
    requires forall g :: g in order ==> g in state
  {
    var found := Search(state, order, key);
    if found.Some? then found.value
    else if retries == RETRY_LIMIT then Refuse
    else
      match FirstFree(state, order)
      case None => WaitForFree
      case Some(group) =>
        Assign(Selected(group, state[group].ranges + [WholeTable(key)], state[group].generation + 1))
  }

  lemma {:induction false} SearchFinds(state: MasterState, order: seq<GroupId>, key: Key)
    requires forall g :: g in order ==> g in state
    ensures Search(state, order, key).None? ==> forall g :: g in order ==> !Covers(CurrentRanges(state[g]), key)
    ensures Search(state, order, key).Some? ==>
      exists g ::
        g in order && Covers(CurrentRanges(state[g]), key) && Search(state, order, key) == AtGroup(state, g, key)
  {
    if order != [] {
      SearchFinds(state, order[1..], key);
      assert order == [order[0]] + order[1..];
    }
  }

  /** Of the groups that have the key, the first in the order of iteration is taken. */
  lemma {:induction false} SearchFindsFirst(state: MasterState, order: seq<GroupId>, key: Key, i: nat)
    requires forall g :: g in order ==> g in state
    requires i < |order| && Covers(CurrentRanges(state[order[i]]), key)
    requires forall j :: 0 <= j < i ==> !Covers(CurrentRanges(state[order[j]]), key)
    ensures Search(state, order, key) == AtGroup(state, order[i], key)
    ensures
      var s := state[order[i]];
      Search(state, order, key) == Some(
        if s.KeySpace? then Answer(order[i]) else Resend(SelectedMsg(order[i], s.newRanges, s.generation)))
    decreases i
  {
    if i > 0 {
      SearchFindsFirst(state, order[1..], key, i - 1);
    }
  }

  /** Of the groups that are free, the first in the order of iteration is taken. */
  lemma {:induction false} FirstFreeIsFirst(state: MasterState, order: seq<GroupId>, i: nat)
    requires forall g :: g in order ==> g in state
    requires i < |order| && state[order[i]].KeySpace?
    requires forall j :: 0 <= j < i ==> state[order[j]].NewKeySpace?
    ensures FirstFree(state, order) == Some(order[i])
    decreases i
  {
    if i > 0 {
      FirstFreeIsFirst(state, order[1..], i - 1);
    }
  }

  /** As long as no two groups cover a key, the answer does not depend on the order of iteration. */
  lemma SearchIgnoresOrder(state: MasterState, order: seq<GroupId>, order': seq<GroupId>, key: Key)
    requires forall g :: g in order ==> g in state
    requires forall g :: g in order' <==> g in order
    requires forall g, h ::
      g in order && h in order && Covers(CurrentRanges(state[g]), key) && Covers(CurrentRanges(state[h]), key) ==>
      g == h
    ensures Search(state, order, key) == Search(state, order', key)
  {
    SearchFinds(state, order, key);
    SearchFinds(state, order', key);
  }

  // What a find-key task finds at one of its runs: the state, and an order of iteration.
  datatype Sight = Sight(state: MasterState, order: seq<GroupId>)

  predicate IsSight(s: Sight) {
    s.state.Keys == set g | g in s.order
  }

  /** The actions of a find-key task that runs until it responds, or the sights end. */
  function FindKeyActions(sights: seq<Sight>, key: Key, retries: nat): seq<FindAction>
    requires forall s :: s in sights ==> IsSight(s)
  {
    if sights == [] then []
    else
      assert IsSight(sights[0]);
      var action := FindKeyRun(sights[0].state, sights[0].order, key, retries);
      if action.Answer? || action.Refuse? then [action]
      else [action] + FindKeyActions(sights[1..], key, retries + if action.Assign? then 1 else 0)
  }

  predicate NobodyHas(state: MasterState, key: Key) {
    forall g :: g in state ==> !Covers(CurrentRanges(state[g]), key)
  }

  function Assignments(actions: seq<FindAction>): nat {
    if actions == [] then 0 else Assignments(actions[1..]) + if actions[0].Assign? then 1 else 0
  }

  // Action m refuses exactly when all proposals were made before it and nobody has the key.
  ghost predicate RefusesInTime(actions: seq<FindAction>, sights: seq<Sight>, key: Key, retries: nat, m: nat)
    requires m < |actions| && m < |sights|
  {
    actions[m].Refuse? <==> retries + Assignments(actions[..m]) == RETRY_LIMIT && NobodyHas(sights[m].state, key)
  }

  lemma AssignmentsOfFirst(action: FindAction, rest: seq<FindAction>)
    ensures Assignments([action] + rest) == Assignments(rest) + if action.Assign? then 1 else 0
  {
    assert ([action] + rest)[1..] == rest;
  }

  lemma RefusesLater(action: FindAction, rest: seq<FindAction>, sights: seq<Sight>, key: Key, retries: nat, m: nat)
    requires 0 < m < |[action] + rest| && m < |sights|
    requires RefusesInTime(rest, sights[1..], key, retries + if action.Assign? then 1 else 0, m - 1)
    ensures RefusesInTime([action] + rest, sights, key, retries, m)
  {
    AssignmentsOfFirst(action, rest[..m - 1]);
    assert ([action] + rest)[..m] == [action] + rest[..m - 1];
  }

  lemma NobodyHasIffNotFound(s: Sight, key: Key)
    requires IsSight(s)
    ensures NobodyHas(s.state, key) <==> Search(s.state, s.order, key).None?
  {
    SearchFinds(s.state, s.order, key);
  }

  /**
   Whatever it finds, a find-key task responds at its last run only, proposes at most RETRY_LIMIT
   times, and refuses exactly when it has made all its proposals and still nobody has the key.
  */
  lemma {:induction false} FindKeyProposesAtMost(sights: seq<Sight>, key: Key, retries: nat)
    requires retries <= RETRY_LIMIT && forall s :: s in sights ==> IsSight(s)
    ensures
      var actions := FindKeyActions(sights, key, retries);
      && |actions| <= |sights|
      && (forall i :: 0 <= i < |actions| - 1 ==> !actions[i].Answer? && !actions[i].Refuse?)
      && Assignments(actions) <= RETRY_LIMIT - retries
      && forall m: nat :: m < |actions| ==> RefusesInTime(actions, sights, key, retries, m)
    decreases |sights|
  {
    if sights != [] {
      assert IsSight(sights[0]);
      var action := FindKeyRun(sights[0].state, sights[0].order, key, retries);
      var actions := FindKeyActions(sights, key, retries);
      NobodyHasIffNotFound(sights[0], key);
      SearchFinds(sights[0].state, sights[0].order, key);
      assert RefusesInTime(actions, sights, key, retries, 0);
      if !action.Answer? && !action.Refuse? {
        var retries' := retries + if action.Assign? then 1 else 0;
        FindKeyProposesAtMost(sights[1..], key, retries');
        var rest := FindKeyActions(sights[1..], key, retries');
        AssignmentsOfFirst(action, rest);
        forall m: nat | 0 < m < |actions|
          ensures RefusesInTime(actions, sights, key, retries, m)
        {
          RefusesLater(action, rest, sights, key, retries, m);
        }
      } else {
        AssignmentsOfFirst(action, []);
      }
    }
  }

  /** The task that answers a slave group's confirmation. */
  function KeySpaceChangedRun(state: MasterState, group: GroupId, generation: nat): Option<Entry> {
    if group in state && state[group].NewKeySpace? && state[group].generation == generation
    then Some(Commit(group, generation))
    else None
  }

  // ----- The class -----

  class KeySpaceManager {
    var groups: MasterState

    constructor ()
      ensures groups == map[]
    {
      groups := map[];
    }

    /** A group that is already there keeps its state. */
    method SetFirstConfig(group: GroupId)
      modifies this
      ensures groups == if group in old(groups) then old(groups) else old(groups)[group := KeySpace([], 0)]
    {
      if group !in groups {
        groups := groups[group := KeySpace([], 0)];
      }
    }

    method OnSelectedEntry(group: GroupId, newRanges: seq<Range>, generation: nat) returns (sent: Option<SelectedMsg>)
      modifies this
      ensures
        var after := OnSelected(old(groups), group, newRanges, generation);
        && groups == (if after.Some? then after.value else old(groups))
        && sent == if after.Some? then Some(SelectedMsg(group, newRanges, generation)) else None
    {
      sent := None;
      if group !in groups || groups[group].NewKeySpace? {
        return;
      }
      var keySpace := groups[group];
      if keySpace.generation + 1 != generation {
        return;
      }
      var copied: seq<Range> := [];
      for i := 0 to |newRanges|
        invariant copied == newRanges[..i]
      {
        copied := copied + [newRanges[i]];
      }
      assert copied == newRanges;
      groups := groups[group := NewKeySpace(keySpace.ranges, copied, generation)];
      sent := Some(SelectedMsg(group, copied, generation));
    }

    method OnCommitEntry(group: GroupId, generation: nat) returns (failed: bool)
      modifies this
      ensures
        var after := OnCommit(old(groups), group, generation);
        && groups == (if after.Some? then after.value else old(groups))
        && failed == after.None?
    {
      failed := true;
      if group !in groups || groups[group].KeySpace? {
        return;
      }
      var newKeySpace := groups[group];
      if newKeySpace.generation != generation {
        return;
      }
      groups := groups[group := KeySpace(newKeySpace.newRanges, newKeySpace.generation)];
      failed := false;
    }

    method AnyWithin(ranges: seq<Range>, key: Key) returns (found: bool)
      ensures found == Covers(ranges, key)
    {
      found := false;
      for i := 0 to |ranges|
        invariant found <==> exists j :: 0 <= j < i && Within(ranges[j], key)
      {
        if Within(ranges[i], key) {
          found := true;
        }
      }
    }

    method SearchGroups(order: seq<GroupId>, key: Key) returns (found: Option<FindAction>)
      requires forall g :: g in order ==> g in groups
      ensures found == Search(groups, order, key)
    {
      var rest := order;
      while rest != []
        invariant forall g :: g in rest ==> g in groups
        invariant Search(groups, order, key) == Search(groups, rest, key)
      {
        var group := rest[0];
        var state := groups[group];
        if state.KeySpace? {
          var within := AnyWithin(state.ranges, key);
          if within {
            return Some(Answer(group));
          }
        } else {
          var within := AnyWithin(state.newRanges, key);
          if within {
            return Some(Resend(SelectedMsg(group, state.newRanges, state.generation)));
          }
        }
        rest := rest[1..];
      }
      found := None;
    }

    method FindFree(order: seq<GroupId>) returns (free: Option<GroupId>)
      requires forall g :: g in order ==> g in groups
      ensures free == FirstFree(groups, order)
    {
      var rest := order;
      while rest != [] && groups[rest[0]].NewKeySpace?
        invariant forall g :: g in rest ==> g in groups
        invariant FirstFree(groups, order) == FirstFree(groups, rest)
      {
        rest := rest[1..];
      }
      free := if rest == [] then None else Some(rest[0]);
    }

    /** One run of the find-key task; `order` is how the hash map happens to be iterated. */
    method RunFindKey(order: seq<GroupId>, key: Key, retryCount: nat)
      returns (action: FindAction, retryCount': nat, wait: int)
      requires forall g :: g in order <==> g in groups
      ensures action == FindKeyRun(groups, order, key, retryCount)
      ensures retryCount' == retryCount + if action.Assign? then 1 else 0
      ensures wait == if action.Answer? || action.Refuse? then AsyncQueues.TERMINATE else WAIT
    {
      retryCount', wait := retryCount, AsyncQueues.TERMINATE;
      var found := SearchGroups(order, key);
      if found.Some? {
        action := found.value;
        SearchFinds(groups, order, key);
        wait := if action.Answer? then AsyncQueues.TERMINATE else WAIT;
        return;
      }
      if retryCount == RETRY_LIMIT {
        action := Refuse;
        return;
      }
      wait := WAIT;
      var free := FindFree(order);
      if free.None? {
        action := WaitForFree;
        return;
      }
      var state := groups[free.value];
      var newRanges := state.ranges + [WholeTable(key)];
      action := Assign(Selected(free.value, newRanges, state.generation + 1));
      retryCount' := retryCount + 1;
    }

    /** `group` is the group of the sender's endpoint. Looking up a group adds it when it is missing. */
    method RunKeySpaceChanged(group: Option<GroupId>, generation: nat) returns (proposed: Option<Entry>, wait: int)
      modifies this
      ensures proposed == if group.Some? then KeySpaceChangedRun(old(groups), group.value, generation) else None
      ensures wait == if proposed.Some? then WAIT else AsyncQueues.TERMINATE
      ensures groups ==
        if group.Some? && group.value !in old(groups) then old(groups)[group.value := KeySpace([], 0)] else old(groups)
    {
      if group.Some? {
        if group.value !in groups {
          groups := groups[group.value := KeySpace([], 0)];
        }
        var state := groups[group.value];
        if state.NewKeySpace? {
          if state.generation == generation {
            return Some(Commit(group.value, generation)), WAIT;
          }
        }
      }
      return None, AsyncQueues.TERMINATE;
    }
  }
}
