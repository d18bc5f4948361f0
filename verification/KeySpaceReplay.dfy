/**
 Which logs pass the callbacks of masters and slaves, and in which state they leave them, as conditions
 on the entries alone: of any log, whether or not a run can lead to it.
*/
module KeySpaceReplays {
  import opened Wrappers
  import opened Entries
  import opened KeySpaceRanges
  import opened KeySpaceManagers
  import opened SlaveKeySpaceManagers
  import opened Handshake

  // ----- Masters -----

  /** How many commits for group g are among the first n entries. */
  function Commits(g: GroupId, entries: seq<Entry>, n: nat): nat
    requires n <= |entries|
  {
    if n == 0 then 0
    else Commits(g, entries, n - 1) + if entries[n - 1].Commit? && entries[n - 1].group == g then 1 else 0
  }

  /**
   The i-th entry passes: a selection is for a known group all of whose selections are committed, and of
   the next generation; a commit is of the one selection that is not.
  */
  ghost predicate MasterPasses(groups: set<GroupId>, entries: seq<Entry>, i: nat)
    requires i < |entries|
  {
    var e := entries[i];
    && (e.Selected? ==>
          var selections := |History(e.group, entries, i)|;
          e.group in groups && selections == Commits(e.group, entries, i) && e.generation == selections + 1)
    && (e.Commit? ==>
          var selections := |History(e.group, entries, i)|;
          e.group in groups && selections == Commits(e.group, entries, i) + 1 && e.generation == selections)
  }

  /** The state of a group whose selections and commits are these. */
  ghost predicate IsStateAfter(s: GroupState, h: seq<seq<Range>>, commits: nat) {
    && s.generation == |h|
    && (s.KeySpace? <==> commits == |h|)
    && (s.NewKeySpace? <==> commits + 1 == |h|)
    && CurrentRanges(s) == Last(h)
    && (s.NewKeySpace? ==> s.ranges == Previous(h))
  }

  ghost predicate GroupIsAfter(state: MasterState, entries: seq<Entry>, n: nat, g: GroupId)
    requires n <= |entries|
  {
    g in state && IsStateAfter(state[g], History(g, entries, n), Commits(g, entries, n))
  }

  ghost predicate IsMasterAfter(groups: set<GroupId>, entries: seq<Entry>, n: nat, state: MasterState)
    requires n <= |entries|
  {
    && state.Keys == groups
    && forall g {:trigger GroupIsAfter(state, entries, n, g)} :: g in groups ==> GroupIsAfter(state, entries, n, g)
  }

  lemma EntryPassesIff(groups: set<GroupId>, entries: seq<Entry>, n: nat, state: MasterState)
    requires n < |entries| && IsMasterAfter(groups, entries, n, state)
    ensures OnMasterEntry(state, entries[n]).Some? <==> MasterPasses(groups, entries, n)
  {
    var e := entries[n];
    if (e.Selected? || e.Commit?) && e.group in groups {
      assert GroupIsAfter(state, entries, n, e.group);
    }
  }

  lemma GroupNext(entries: seq<Entry>, n: nat, state: MasterState, after: MasterState, g: GroupId)
    requires n < |entries| && GroupIsAfter(state, entries, n, g)
    requires OnMasterEntry(state, entries[n]) == Some(after)
    ensures GroupIsAfter(after, entries, n + 1, g)
  {
  }

  lemma MasterNext(groups: set<GroupId>, entries: seq<Entry>, n: nat, state: MasterState)
    requires n < |entries| && IsMasterAfter(groups, entries, n, state)
    requires OnMasterEntry(state, entries[n]).Some?
    ensures IsMasterAfter(groups, entries, n + 1, OnMasterEntry(state, entries[n]).value)
  {
    var after := OnMasterEntry(state, entries[n]).value;
    forall g | g in groups
      ensures GroupIsAfter(after, entries, n + 1, g)
    {
      assert GroupIsAfter(state, entries, n, g);
      GroupNext(entries, n, state, after, g);
    }
  }

  /**
   A log passes the masters' callbacks exactly if selections and commits alternate in each known group and
   count its generations; each group then has the ranges of its last selection, committed or not.
  */
  lemma {:induction false} MasterReplayPassesIff(groups: set<GroupId>, entries: seq<Entry>, n: nat)
    requires n <= |entries|
    ensures MasterAt(groups, entries, n).Some? <==> forall i: nat :: i < n ==> MasterPasses(groups, entries, i)
    ensures MasterAt(groups, entries, n).Some? ==>
      IsMasterAfter(groups, entries, n, MasterAt(groups, entries, n).value)
  {
    if n > 0 {
      MasterReplayPassesIff(groups, entries, n - 1);
      var before := MasterAt(groups, entries, n - 1);
      if before.Some? {
        EntryPassesIff(groups, entries, n - 1, before.value);
        if OnMasterEntry(before.value, entries[n - 1]).Some? {
          MasterNext(groups, entries, n - 1, before.value);
        }
      }
    }
  }

  // ----- Slaves -----

  /** The range lists that the first n entries adopt. */
  function Adoptions(entries: seq<Entry>, n: nat): seq<seq<Range>>
    requires n <= |entries|
  {
    if n == 0 then []
    else Adoptions(entries, n - 1) + if entries[n - 1].Changed? then [entries[n - 1].newRanges] else []
  }

  /** A log passes the slaves' callback exactly if its adoptions count the generations from 1 on. */
  lemma {:induction false} SlaveReplayPassesIff(entries: seq<Entry>, n: nat)
    requires n <= |entries|
    ensures SlaveAt(entries, n).Some? <==>
            forall i: nat :: i < n && entries[i].Changed? ==> entries[i].generation == |Adoptions(entries, i)| + 1
    ensures SlaveAt(entries, n).Some? ==>
      SlaveAt(entries, n).value == SlaveState(Last(Adoptions(entries, n)), |Adoptions(entries, n)|)
  {
    if n > 0 {
      SlaveReplayPassesIff(entries, n - 1);
    }
  }
}
