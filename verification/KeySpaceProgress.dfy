/**
 How the handshake goes on: from every state that a run can reach, there is a way on to a state in
 which a client has been told which group serves its key, as long as entries can be agreed on.
*/
module KeySpaceProgress {
  import opened Wrappers
  import opened Paths
  import opened Entries
  import opened KeySpaceRanges
  import opened KeySpaceManagers
  import opened SlaveKeySpaceManagers
  import opened Handshake
  import opened KeySpaceSafety
  import A = AgreedLogs

  // ----- Who does the work -----

  // A master, and in each group a slave.
  datatype Staff = Staff(master: nat, slaves: map<GroupId, nat>)

  /** Replica p has delivered all that is agreed. */
  predicate IsUp(log: A.AgreedLog, p: nat) {
    p < |log.seen| && log.seen[p] == |log.agreed|
  }

  ghost predicate SlaveIsUp(staff: Staff, c: Cluster, g: GroupId) {
    g in staff.slaves && g in c.slaves && IsUp(c.slaves[g], staff.slaves[g])
  }

  ghost predicate AllUp(groups: set<GroupId>, staff: Staff, c: Cluster) {
    && staff.slaves.Keys == groups == c.slaves.Keys && IsUp(c.master, staff.master)
    && forall g {:trigger SlaveIsUp(staff, c, g)} :: g in groups ==> SlaveIsUp(staff, c, g)
  }

  // ----- What they do -----

  /** A find-key task for this key, running for the first time, proposes e. */
  ghost predicate Assigns(state: MasterState, order: seq<GroupId>, key: Key, e: Entry) {
    (forall g :: g in order <==> g in state) && FindKeyRun(state, order, key, 0) == FindAction.Assign(e)
  }

  ghost predicate StateProposes(state: MasterState, changed: set<ChangedMsg>, e: Entry) {
    || (exists order, key :: Assigns(state, order, key, e))
    || (exists msg :: msg in changed && KeySpaceChangedRun(state, msg.group, msg.generation) == Some(e))
  }

  /** A task of master p, in the state it has come to, proposes e. */
  ghost predicate MasterProposes(groups: set<GroupId>, c: Cluster, p: nat, e: Entry) {
    && p < |c.master.seen| && c.master.seen[p] <= |c.master.agreed|
    && var state := MasterAt(groups, c.master.agreed, c.master.seen[p]);
      state.Some? && StateProposes(state.value, c.changed, e)
  }

  /** A task of replica p of slave group g, in the state it has come to, proposes e. */
  ghost predicate SlaveProposes(c: Cluster, g: GroupId, p: nat, e: Entry) {
    && g in c.slaves && p < |c.slaves[g].seen| && c.slaves[g].seen[p] <= |c.slaves[g].agreed|
    && var state := SlaveAt(c.slaves[g].agreed, c.slaves[g].seen[p]);
      && state.Some?
      && exists msg :: msg in c.selected && msg.group == g
                       && KeySpaceChangeRun(state.value, msg.ranges, msg.generation) == Adopt(e)
  }

  /** Master p's proposal of e made w the next agreed entry, and p has delivered it. */
  ghost function MasterWrote(c: Cluster, p: nat, e: Entry, w: Entry): Cluster
    requires p < |c.master.seen|
  {
    var log := A.AfterRound(c.master, e, w, p, |c.master.agreed| + 1);
    c.(master := log, selected := c.selected + SelectionsIn(log.agreed, |c.master.agreed|, |log.agreed|))
  }

  ghost function SlaveWrote(c: Cluster, g: GroupId, p: nat, e: Entry): Cluster
    requires g in c.slaves && p < |c.slaves[g].seen|
  {
    var log := A.AfterRound(c.slaves[g], e, e, p, |c.slaves[g].agreed| + 1);
    c.(slaves := c.slaves[g := log],
       changed := c.changed + ConfirmationsIn(g, log.agreed, |c.slaves[g].agreed|, |log.agreed|))
  }

  /** A task of the master or of a slave sends something, and no log changes. */
  ghost predicate Tells(groups: set<GroupId>, staff: Staff, c: Cluster, c': Cluster) {
    && c'.master == c.master && c'.slaves == c.slaves
    && (|| (exists order, key :: FindKey(groups, c, c', staff.master, order, key, 0))
        || (exists g, msg :: g in staff.slaves && HandleSelected(c, c', g, staff.slaves[g], msg)))
  }

  ghost predicate SlaveWrites(staff: Staff, c: Cluster, c': Cluster, g: GroupId, e: Entry) {
    && g in staff.slaves && SlaveIsUp(staff, c, g) && SlaveProposes(c, g, staff.slaves[g], e)
    && c' == SlaveWrote(c, g, staff.slaves[g], e)
  }

  /** What can happen while the masters' log stays as it is. */
  ghost function Moves(groups: set<GroupId>, staff: Staff): Relation<Cluster> {
    (c, c') => Tells(groups, staff, c, c') || exists g, e :: SlaveWrites(staff, c, c', g, e)
  }

  // ----- Each of these is one step or several -----

  lemma ReachedOn(groups: set<GroupId>, c: Cluster, c': Cluster)
    requires Reached(groups, c) && Leads(Steps(groups), c, c')
    ensures Reached(groups, c')
  {
    var masters: nat, replicas: nat :| Leads(Steps(groups), InitCluster(groups, masters, replicas), c);
    LeadsThrough(Steps(groups), InitCluster(groups, masters, replicas), c, c');
  }

  lemma ThreeSteps(groups: set<GroupId>, c: Cluster, x: Cluster, y: Cluster, c': Cluster)
    requires Next(groups, c, x) && Next(groups, x, y) && Next(groups, y, c')
    ensures Leads(Steps(groups), c, c')
  {
    LeadsToItself(Steps(groups), c);
    LeadsOn(Steps(groups), c, c, x);
    LeadsOn(Steps(groups), c, x, y);
    LeadsOn(Steps(groups), c, y, c');
  }

  lemma MasterProposalIsStep(groups: set<GroupId>, c: Cluster, p: nat, e: Entry, log: A.AgreedLog)
    requires MasterProposes(groups, c, p, e) && A.Offers(c.master, log, p, e)
    ensures Next(groups, c, c.(master := log))
  {
    var m := c.(master := log);
    var state := MasterAt(groups, c.master.agreed, c.master.seen[p]).value;
    if order, key :| Assigns(state, order, key, e) {
      assert FindKey(groups, c, m, p, order, key, 0);
    } else {
      var msg :| msg in c.changed && KeySpaceChangedRun(state, msg.group, msg.generation) == Some(e);
      assert HandleChanged(groups, c, m, p, msg);
    }
  }

  lemma MasterWriteIsRun(groups: set<GroupId>, c: Cluster, p: nat, e: Entry, w: Entry)
    requires IsUp(c.master, p) && MasterProposes(groups, c, p, e)
    requires w == e || A.Offer(|c.master.agreed|, w) in c.master.offers
    ensures Leads(Steps(groups), c, MasterWrote(c, p, e, w))
  {
    var n := |c.master.agreed|;
    var x := c.(master := c.master.(offers := c.master.offers + {A.Offer(n, e)}));
    MasterProposalIsStep(groups, c, p, e, x.master);
    var y := x.(master := x.master.(agreed := x.master.agreed + [w]));
    assert MasterDecides(x, y, w);
    var c' := MasterWrote(c, p, e, w);
    assert A.Advances(y.master, c'.master, p, n + 1);
    assert MasterAdvances(y, c', p, n + 1);
    ThreeSteps(groups, c, x, y, c');
  }

  lemma SlaveWriteIsRun(groups: set<GroupId>, c: Cluster, g: GroupId, p: nat, e: Entry)
    requires SlaveProposes(c, g, p, e) && IsUp(c.slaves[g], p)
    ensures Leads(Steps(groups), c, SlaveWrote(c, g, p, e))
  {
    var log := c.slaves[g];
    var n := |log.agreed|;
    var msg :| msg in c.selected && msg.group == g
               && KeySpaceChangeRun(SlaveAt(log.agreed, n).value, msg.ranges, msg.generation) == Adopt(e);
    var x := c.(slaves := c.slaves[g := log.(offers := log.offers + {A.Offer(n, e)})]);
    assert A.Offers(log, x.slaves[g], p, e);
    assert HandleSelected(c, x, g, p, msg);
    var y := x.(slaves := x.slaves[g := x.slaves[g].(agreed := log.agreed + [e])]);
    assert SlaveDecides(x, y, g, e);
    var c' := SlaveWrote(c, g, p, e);
    assert A.Advances(y.slaves[g], c'.slaves[g], p, n + 1);
    assert SlaveAdvances(y, c', g, p, n + 1);
    ThreeSteps(groups, c, x, y, c');
  }

  lemma TellingIsStep(groups: set<GroupId>, staff: Staff, c: Cluster, c': Cluster)
    requires Tells(groups, staff, c, c')
    ensures Next(groups, c, c')
  {
  }

  lemma MoveIsRun(groups: set<GroupId>, staff: Staff, c: Cluster, c': Cluster)
    requires Moves(groups, staff)(c, c')
    ensures Leads(Steps(groups), c, c')
  {
    if Tells(groups, staff, c, c') {
      TellingIsStep(groups, staff, c, c');
      LeadsToItself(Steps(groups), c);
      LeadsOn(Steps(groups), c, c, c');
    } else {
      var g, e :| SlaveWrites(staff, c, c', g, e);
      SlaveWriteIsRun(groups, c, g, staff.slaves[g], e);
    }
  }

  lemma MoveKeepsUp(groups: set<GroupId>, staff: Staff, c: Cluster, c': Cluster)
    requires AllUp(groups, staff, c) && Moves(groups, staff)(c, c')
    ensures AllUp(groups, staff, c') && c'.master == c.master
  {
    if !Tells(groups, staff, c, c') {
      var g, e :| SlaveWrites(staff, c, c', g, e);
      assert c'.slaves.Keys == c.slaves.Keys;
    }
    forall h | h in groups
      ensures SlaveIsUp(staff, c', h)
    {
      assert SlaveIsUp(staff, c, h);
    }
  }

  /** The state c is on the way from o, with everyone at work. */
  ghost predicate On(groups: set<GroupId>, staff: Staff, o: Cluster, c: Cluster) {
    Reached(groups, c) && AllUp(groups, staff, c) && c.master == o.master && Leads(Moves(groups, staff), o, c)
  }

  lemma Go(groups: set<GroupId>, staff: Staff, o: Cluster, c: Cluster, c': Cluster)
    requires On(groups, staff, o, c) && Moves(groups, staff)(c, c')
    ensures On(groups, staff, o, c')
  {
    LeadsOn(Moves(groups, staff), o, c, c');
    MoveIsRun(groups, staff, c, c');
    ReachedOn(groups, c, c');
    MoveKeepsUp(groups, staff, c, c');
  }

  // ----- What a master sees that is up to date -----

  /** The whole log leaves a master in this state. */
  ghost predicate Sees(groups: set<GroupId>, c: Cluster, state: MasterState) {
    MasterAt(groups, c.master.agreed, |c.master.agreed|) == Some(state)
  }

  ghost predicate Lists(order: seq<GroupId>, groups: set<GroupId>) {
    forall g :: g in order <==> g in groups
  }

  lemma SeesGood(groups: set<GroupId>, c: Cluster, state: MasterState)
    requires Reached(groups, c) && Sees(groups, c, state)
    ensures state.Keys == groups
    ensures GoodState(state, HistoriesAt(groups, c.master.agreed, |c.master.agreed|), Adopted(c.slaves))
  {
    ReachedHolds(groups, c);
    assert Good(groups, c.master.agreed, |c.master.agreed|, Adopted(c.slaves));
  }

  lemma SeesGroups(groups: set<GroupId>, c: Cluster, state: MasterState)
    requires Reached(groups, c) && Sees(groups, c, state)
    ensures state.Keys == groups
  {
    SeesGood(groups, c, state);
  }

  lemma OneGroupCovers(state: MasterState, hs: Histories, adopted: map<GroupId, nat>, g: GroupId, h: GroupId, key: Key)
    requires GoodState(state, hs, adopted) && g in state && h in state
    requires Covers(CurrentRanges(state[g]), key) && Covers(CurrentRanges(state[h]), key)
    ensures g == h
  {
    assert Fits(state[g], hs[g], adopted[g]) && Fits(state[h], hs[h], adopted[h]);
    DisjointServes(hs, g, h, key);
  }

  lemma SearchGets(groups: set<GroupId>, c: Cluster, state: MasterState, order: seq<GroupId>, g: GroupId, key: Key)
    requires Reached(groups, c) && Sees(groups, c, state) && Lists(order, groups) && g in groups
    requires g in state && Covers(CurrentRanges(state[g]), key)
    ensures state.Keys == groups && Search(state, order, key) == AtGroup(state, g, key)
  {
    SeesGood(groups, c, state);
    SearchFinds(state, order, key);
    assert g in order;
    var h :| h in order && Covers(CurrentRanges(state[h]), key) && Search(state, order, key) == AtGroup(state, h, key);
    OneGroupCovers(state, HistoriesAt(groups, c.master.agreed, |c.master.agreed|), Adopted(c.slaves), g, h, key);
  }

  lemma SomethingIsSeen(groups: set<GroupId>, c: Cluster) returns (state: MasterState)
    requires Reached(groups, c)
    ensures Sees(groups, c, state) && state.Keys == groups
  {
    ReachedHolds(groups, c);
    assert Good(groups, c.master.agreed, |c.master.agreed|, Adopted(c.slaves));
    state := MasterAt(groups, c.master.agreed, |c.master.agreed|).value;
  }

  // ----- The exchanges -----

  lemma FindKeyTells(
    groups: set<GroupId>, staff: Staff, o: Cluster, c: Cluster, state: MasterState, order: seq<GroupId>, key: Key,
    c': Cluster)
    requires On(groups, staff, o, c) && Sees(groups, c, state) && Lists(order, groups) && state.Keys == groups
    requires c'.master == c.master && c'.slaves == c.slaves
    requires FindKey(groups, c, c', staff.master, order, key, 0)
    ensures On(groups, staff, o, c')
  {
    Go(groups, staff, o, c, c');
  }

  /** A steady group that covers the key is answered. */
  lemma AnswerKey(
    groups: set<GroupId>, staff: Staff, o: Cluster, c: Cluster, state: MasterState, order: seq<GroupId>, g: GroupId,
    key: Key)
    returns (c': Cluster)
    requires On(groups, staff, o, c) && Sees(groups, c, state) && Lists(order, groups)
    requires g in groups && g in state && state[g].KeySpace? && Covers(state[g].ranges, key)
    ensures On(groups, staff, o, c') && Answered(key, g) in c'.answers
  {
    SearchGets(groups, c, state, order, g, key);
    c' := c.(answers := c.answers + {Answered(key, g)});
    FindKeyTells(groups, staff, o, c, state, order, key, c');
  }

  /** A group that is getting the key is sent its selection again. */
  lemma ResendSelection(
    groups: set<GroupId>, staff: Staff, o: Cluster, c: Cluster, state: MasterState, order: seq<GroupId>, g: GroupId,
    key: Key)
    returns (c': Cluster)
    requires On(groups, staff, o, c) && Sees(groups, c, state) && Lists(order, groups)
    requires g in groups && g in state && state[g].NewKeySpace? && Covers(state[g].newRanges, key)
    ensures On(groups, staff, o, c') && c'.master == c.master && c'.slaves == c.slaves
    ensures SelectedMsg(g, state[g].newRanges, state[g].generation) in c'.selected
  {
    SearchGets(groups, c, state, order, g, key);
    c' := c.(selected := c.selected + {SelectedMsg(g, state[g].newRanges, state[g].generation)});
    FindKeyTells(groups, staff, o, c, state, order, key, c');
  }

  lemma SlaveIsThere(groups: set<GroupId>, c: Cluster, g: GroupId)
    requires Reached(groups, c) && g in groups
    ensures g in c.slaves
    ensures
      var log := c.slaves[g].agreed;
      SlaveAt(log, |log|).Some? && SlaveAt(log, |log|).value.generation == |log|
  {
    ReachedHolds(groups, c);
    SlaveIsAt(c.slaves[g], Selections(g, c.master.agreed), |c.slaves[g].agreed|);
  }

  /** The slave adopts the selection, or has adopted it before, and confirms it. */
  lemma ConfirmSelection(groups: set<GroupId>, staff: Staff, o: Cluster, c: Cluster, g: GroupId, msg: SelectedMsg)
    returns (c': Cluster)
    requires On(groups, staff, o, c) && g in groups && msg in c.selected && msg.group == g && g in c.slaves
    requires |c.slaves[g].agreed| <= msg.generation <= |c.slaves[g].agreed| + 1
    ensures On(groups, staff, o, c') && ChangedMsg(g, msg.generation) in c'.changed
  {
    var log := c.slaves[g];
    SlaveIsThere(groups, c, g);
    assert SlaveIsUp(staff, c, g);
    if msg.generation == |log.agreed| {
      c' := c.(changed := c.changed + {ChangedMsg(g, msg.generation)});
      assert HandleSelected(c, c', g, staff.slaves[g], msg);
    } else {
      var e := Changed(msg.ranges, msg.generation);
      assert KeySpaceChangeRun(SlaveAt(log.agreed, |log.agreed|).value, msg.ranges, msg.generation) == Adopt(e);
      c' := SlaveWrote(c, g, staff.slaves[g], e);
      assert c'.slaves[g].agreed[|log.agreed|] == e;
      assert SlaveWrites(staff, c, c', g, e);
    }
    Go(groups, staff, o, c, c');
  }

  lemma OneAhead(groups: set<GroupId>, c: Cluster, state: MasterState, g: GroupId)
    requires Reached(groups, c) && Sees(groups, c, state) && g in groups && g in state && state[g].NewKeySpace?
    ensures c.slaves.Keys == groups
    ensures |c.slaves[g].agreed| <= state[g].generation <= |c.slaves[g].agreed| + 1
  {
    ReachedHolds(groups, c);
    SeesGood(groups, c, state);
    var hs := HistoriesAt(groups, c.master.agreed, |c.master.agreed|);
    assert Fits(state[g], hs[g], Adopted(c.slaves)[g]);
    assert InvSlave(c.slaves[g], Selections(g, c.master.agreed));
    SlaveIsAt(c.slaves[g], Selections(g, c.master.agreed), |c.slaves[g].agreed|);
  }

  /** A group that is getting new ranges can always be brought to confirm them, so that they can be committed. */
  lemma FinishGroup(
    groups: set<GroupId>, staff: Staff, o: Cluster, c: Cluster, state: MasterState, order: seq<GroupId>, g: GroupId,
    key: Key)
    returns (c': Cluster)
    requires On(groups, staff, o, c) && Sees(groups, c, state) && Lists(order, groups)
    requires g in groups && g in state && state[g].NewKeySpace? && Covers(state[g].newRanges, key)
    ensures On(groups, staff, o, c') && MasterProposes(groups, c', staff.master, Commit(g, state[g].generation))
  {
    var m := ResendSelection(groups, staff, o, c, state, order, g, key);
    OneAhead(groups, m, state, g);
    c' := ConfirmSelection(groups, staff, o, m, g, SelectedMsg(g, state[g].newRanges, state[g].generation));
    var msg := ChangedMsg(g, state[g].generation);
    assert msg in c'.changed && KeySpaceChangedRun(state, msg.group, msg.generation).Some?;
  }

  lemma FindKeyAssigns(state: MasterState, order: seq<GroupId>, key: Key) returns (g: GroupId)
    requires forall h :: h in order <==> h in state
    requires NobodyHas(state, key)
    requires exists h :: h in state && state[h].KeySpace?
    ensures g in state && state[g].KeySpace?
    ensures FindKeyRun(state, order, key, 0) ==
      Assign(Selected(g, state[g].ranges + [WholeTable(key)], state[g].generation + 1))
  {
    SearchFinds(state, order, key);
    g := FirstFree(state, order).value;
  }

  /** A key that nobody has goes to a free group. */
  lemma AssignKey(
    groups: set<GroupId>, staff: Staff, c: Cluster, state: MasterState, order: seq<GroupId>, key: Key)
    returns (g: GroupId, e: Entry)
    requires AllUp(groups, staff, c) && Sees(groups, c, state) && Lists(order, groups) && state.Keys == groups
    requires NobodyHas(state, key)
    requires exists h :: h in state && state[h].KeySpace?
    ensures g in state && state[g].KeySpace? && MasterProposes(groups, c, staff.master, e)
    ensures e == Selected(g, state[g].ranges + [WholeTable(key)], state[g].generation + 1)
  {
    g := FindKeyAssigns(state, order, key);
    e := Selected(g, state[g].ranges + [WholeTable(key)], state[g].generation + 1);
    assert Assigns(state, order, key, e);
  }

  // ----- Towards an answer -----

  lemma {:induction false} Enumerate(groups: set<GroupId>) returns (order: seq<GroupId>)
    ensures Lists(order, groups)
  {
    if groups == {} {
      order := [];
    } else {
      var g :| g in groups;
      var rest := Enumerate(groups - {g});
      order := rest + [g];
      assert forall h :: h in order <==> h in rest || h == g;
    }
  }

  lemma SomeNewKey(groups: set<GroupId>, c: Cluster, state: MasterState, g: GroupId) returns (key: Key)
    requires Reached(groups, c) && Sees(groups, c, state) && g in groups && g in state && state[g].NewKeySpace?
    ensures Covers(state[g].newRanges, key)
  {
    SeesGood(groups, c, state);
    var hs := HistoriesAt(groups, c.master.agreed, |c.master.agreed|);
    assert Fits(state[g], hs[g], Adopted(c.slaves)[g]);
    LastCounts(hs[g]);
    LastIsWhole(hs[g], 0);
    var r := state[g].newRanges[0];
    key := Key(r.database, r.table, "");
    assert Within(r, key);
  }

  /** How many entries the masters have to agree on before the key can be answered. */
  ghost function ToGo(state: MasterState, key: Key): nat {
    if exists g :: g in state && state[g].KeySpace? && Covers(state[g].ranges, key) then 0
    else if !NobodyHas(state, key) then 1
    else if exists g :: g in state && state[g].KeySpace? then 2
    else 3
  }

  lemma CommitIsCloser(state: MasterState, g: GroupId, key: Key)
    requires g in state && state[g].NewKeySpace?
    requires ToGo(state, key) > 0
    requires Covers(state[g].newRanges, key)
             || (NobodyHas(state, key) && forall h :: h in state ==> state[h].NewKeySpace?)
    ensures OnMasterEntry(state, Commit(g, state[g].generation)).Some?
    ensures ToGo(OnMasterEntry(state, Commit(g, state[g].generation)).value, key) < ToGo(state, key)
  {
    var after := OnMasterEntry(state, Commit(g, state[g].generation)).value;
    assert after[g] == KeySpace(state[g].newRanges, state[g].generation);
    if Covers(state[g].newRanges, key) {
      assert ToGo(after, key) == 0;
    } else {
      assert ToGo(state, key) == 3 && NobodyHas(after, key);
    }
  }

  lemma AssignmentIsCloser(state: MasterState, g: GroupId, key: Key)
    requires g in state && state[g].KeySpace? && NobodyHas(state, key)
    ensures
      var e := Selected(g, state[g].ranges + [WholeTable(key)], state[g].generation + 1);
      OnMasterEntry(state, e).Some? && ToGo(OnMasterEntry(state, e).value, key) < ToGo(state, key)
  {
    var ranges := state[g].ranges;
    var after := state[g := NewKeySpace(ranges, ranges + [WholeTable(key)], state[g].generation + 1)];
    assert Within((ranges + [WholeTable(key)])[|ranges|], key);
    assert Covers(CurrentRanges(after[g]), key);
  }

  /**
   Without anything new in the masters' log, the key can be answered, or else the masters can be brought
   to propose an entry that takes them closer to answering it.
  */
  lemma AnswerOrProposal(groups: set<GroupId>, staff: Staff, c: Cluster, state: MasterState, key: Key)
    returns (c': Cluster, e: Option<Entry>)
    requires Reached(groups, c) && AllUp(groups, staff, c) && Sees(groups, c, state) && groups != {}
    ensures On(groups, staff, c, c')
    ensures e.None? ==> exists g :: g in groups && Answered(key, g) in c'.answers
    ensures e.Some? ==>
      && MasterProposes(groups, c', staff.master, e.value) && OnMasterEntry(state, e.value).Some?
      && ToGo(OnMasterEntry(state, e.value).value, key) < ToGo(state, key)
  {
    LeadsToItself(Moves(groups, staff), c);
    SeesGroups(groups, c, state);
    var order := Enumerate(groups);
    if g :| g in state && state[g].KeySpace? && Covers(state[g].ranges, key) {
      c' := AnswerKey(groups, staff, c, c, state, order, g, key);
      e := None;
    } else if g :| g in state && state[g].NewKeySpace? && Covers(state[g].newRanges, key) {
      c' := FinishGroup(groups, staff, c, c, state, order, g, key);
      e := Some(Commit(g, state[g].generation));
      CommitIsCloser(state, g, key);
    } else if exists h :: h in state && state[h].KeySpace? {
      var g, selection := AssignKey(groups, staff, c, state, order, key);
      c', e := c, Some(selection);
      AssignmentIsCloser(state, g, key);
    } else {
      var g :| g in groups;
      var other := SomeNewKey(groups, c, state, g);
      c' := FinishGroup(groups, staff, c, c, state, order, g, other);
      e := Some(Commit(g, state[g].generation));
      CommitIsCloser(state, g, key);
    }
  }

  // ----- Proposing again what was agreed on -----

  ghost predicate CommitIsConfirmed(o: A.Offer, changed: set<ChangedMsg>) {
    o.entry.Commit? ==> ChangedMsg(o.entry.group, o.entry.generation) in changed
  }

  ghost predicate AdoptionIsSelected(g: GroupId, o: A.Offer, selected: set<SelectedMsg>) {
    o.entry.Changed? && SelectedMsg(g, o.entry.newRanges, o.entry.generation) in selected
  }

  /** What was offered in answer to a message can be offered again: messages can always be repeated. */
  ghost predicate Answerable(c: Cluster) {
    && (forall o :: o in c.master.offers ==> CommitIsConfirmed(o, c.changed))
    && (forall g, o :: g in c.slaves && o in c.slaves[g].offers ==> AdoptionIsSelected(g, o, c.selected))
  }

  lemma OnlySelectionsAreAssigned(state: MasterState, order: seq<GroupId>, key: Key, retries: nat)
    requires forall g :: g in order ==> g in state
    ensures FindKeyRun(state, order, key, retries).Assign? ==> FindKeyRun(state, order, key, retries).entry.Selected?
  {
    SearchFinds(state, order, key);
  }

  lemma FindKeyKeepsConfirmed(
    groups: set<GroupId>, c: Cluster, c': Cluster, p: nat, order: seq<GroupId>, key: Key, retries: nat, o: A.Offer)
    requires Answerable(c) && FindKey(groups, c, c', p, order, key, retries) && o in c'.master.offers
    ensures CommitIsConfirmed(o, c'.changed)
  {
    OnlySelectionsAreAssigned(MasterAt(groups, c.master.agreed, c.master.seen[p]).value, order, key, retries);
    assert o in c.master.offers ==> CommitIsConfirmed(o, c.changed);
  }

  lemma MasterStepKeepsConfirmed(groups: set<GroupId>, c: Cluster, c': Cluster, o: A.Offer)
    requires Answerable(c) && MasterStep(groups, c, c') && o in c'.master.offers
    ensures CommitIsConfirmed(o, c'.changed)
  {
    if p, order, key, retries :| FindKey(groups, c, c', p, order, key, retries) {
      FindKeyKeepsConfirmed(groups, c, c', p, order, key, retries, o);
    } else {
      assert o in c.master.offers ==> CommitIsConfirmed(o, c.changed);
    }
  }

  lemma MasterStepKeepsAnswerable(groups: set<GroupId>, c: Cluster, c': Cluster)
    requires Answerable(c) && MasterStep(groups, c, c')
    ensures Answerable(c')
  {
    forall o | o in c'.master.offers
      ensures CommitIsConfirmed(o, c'.changed)
    {
      MasterStepKeepsConfirmed(groups, c, c', o);
    }
    forall g, o | g in c'.slaves && o in c'.slaves[g].offers
      ensures AdoptionIsSelected(g, o, c'.selected)
    {
      assert AdoptionIsSelected(g, o, c.selected);
    }
  }

  lemma SlaveStepKeepsAnswerable(c: Cluster, c': Cluster)
    requires Answerable(c) && SlaveStep(c, c')
    ensures Answerable(c')
  {
    forall o | o in c'.master.offers
      ensures CommitIsConfirmed(o, c'.changed)
    {
      assert CommitIsConfirmed(o, c.changed);
    }
    forall g, o | g in c'.slaves && o in c'.slaves[g].offers
      ensures AdoptionIsSelected(g, o, c'.selected)
    {
      assert g in c.slaves && o in c.slaves[g].offers ==> AdoptionIsSelected(g, o, c.selected);
    }
  }

  lemma ReachedIsAnswerable(groups: set<GroupId>, c: Cluster)
    requires Reached(groups, c)
    ensures Answerable(c)
  {
    var masters: nat, replicas: nat :| Leads(Steps(groups), InitCluster(groups, masters, replicas), c);
    forall x, y | Answerable(x) && Next(groups, x, y)
      ensures Answerable(y)
    {
      if MasterStep(groups, x, y) {
        MasterStepKeepsAnswerable(groups, x, y);
      } else {
        SlaveStepKeepsAnswerable(x, y);
      }
    }
    LeadsKeeps(Steps(groups), c => Answerable(c), InitCluster(groups, masters, replicas), c);
  }

  lemma AssignsAgain(state: MasterState, g: GroupId, key: Key) returns (order: seq<GroupId>)
    requires g in state && state[g].KeySpace? && NobodyHas(state, key)
    ensures Assigns(state, order, key, Selected(g, state[g].ranges + [WholeTable(key)], state[g].generation + 1))
  {
    var rest := Enumerate(state.Keys);
    order := [g] + rest;
    assert forall h :: h in order <==> h in state;
    SearchFinds(state, order, key);
    assert FirstFree(state, order) == Some(g);
  }

  lemma ProposesAgain(state: MasterState, e: Entry, adopted: map<GroupId, nat>, changed: set<ChangedMsg>)
    requires MayPropose(state, e, adopted)
    requires e.Commit? ==> ChangedMsg(e.group, e.generation) in changed
    ensures StateProposes(state, changed, e)
  {
    if e.Commit? {
      var msg := ChangedMsg(e.group, e.generation);
      assert msg in changed && KeySpaceChangedRun(state, msg.group, msg.generation) == Some(e);
    } else {
      var key :| Fresh(state, state[e.group].ranges, e.newRanges, key);
      var order := AssignsAgain(state, e.group, key);
    }
  }

  /** A master that lags can propose just what the masters agreed on for the index it is at. */
  lemma MasterCanRepeat(groups: set<GroupId>, c: Cluster, p: nat)
    requires Reached(groups, c) && p < |c.master.seen| && c.master.seen[p] < |c.master.agreed|
    ensures MasterProposes(groups, c, p, c.master.agreed[c.master.seen[p]])
  {
    var i := c.master.seen[p];
    var e := c.master.agreed[i];
    ReachedHolds(groups, c);
    ReachedIsAnswerable(groups, c);
    var o := A.Offer(i, e);
    assert o in c.master.offers && CommitIsConfirmed(o, c.changed);
    OfferedMayBeOffered(groups, c.master, Adopted(c.slaves), o);
    ProposesAgain(MasterAt(groups, c.master.agreed, i).value, e, Adopted(c.slaves), c.changed);
  }

  /** So can a slave. */
  lemma SlaveCanRepeat(groups: set<GroupId>, c: Cluster, g: GroupId, p: nat)
    requires Reached(groups, c) && g in groups && g in c.slaves
    requires p < |c.slaves[g].seen| && c.slaves[g].seen[p] < |c.slaves[g].agreed|
    ensures SlaveProposes(c, g, p, c.slaves[g].agreed[c.slaves[g].seen[p]])
  {
    var log := c.slaves[g];
    var i := log.seen[p];
    ReachedHolds(groups, c);
    ReachedIsAnswerable(groups, c);
    var o := A.Offer(i, log.agreed[i]);
    assert InvSlave(log, Selections(g, c.master.agreed));
    SlaveIsAt(log, Selections(g, c.master.agreed), i);
    SlaveAdopts(log, Selections(g, c.master.agreed), i);
    assert o in log.offers && AdoptionIsSelected(g, o, c.selected);
    var msg := SelectedMsg(g, o.entry.newRanges, o.entry.generation);
    assert KeySpaceChangeRun(SlaveAt(log.agreed, i).value, msg.ranges, msg.generation) == Adopt(o.entry);
  }

  // ----- Over agreed logs -----

  lemma MovesAreRun(groups: set<GroupId>, staff: Staff, c: Cluster, c': Cluster)
    requires Leads(Moves(groups, staff), c, c')
    ensures Leads(Steps(groups), c, c')
  {
    var inv := x => Leads(Steps(groups), c, x);
    LeadsToItself(Steps(groups), c);
    forall x, y | inv(x) && Moves(groups, staff)(x, y)
      ensures inv(y)
    {
      MoveIsRun(groups, staff, x, y);
      LeadsThrough(Steps(groups), c, x, y);
    }
    LeadsKeeps(Moves(groups, staff), inv, c, c');
  }

  lemma WriteKeepsUp(groups: set<GroupId>, staff: Staff, c: Cluster, e: Entry, w: Entry)
    requires AllUp(groups, staff, c)
    ensures AllUp(groups, staff, MasterWrote(c, staff.master, e, w))
  {
    var c' := MasterWrote(c, staff.master, e, w);
    forall g | g in groups
      ensures SlaveIsUp(staff, c', g)
    {
      assert SlaveIsUp(staff, c, g);
    }
  }

  lemma SeesWritten(groups: set<GroupId>, c: Cluster, state: MasterState, p: nat, e: Entry, w: Entry)
    requires Sees(groups, c, state) && IsUp(c.master, p) && OnMasterEntry(state, w).Some?
    ensures Sees(groups, MasterWrote(c, p, e, w), OnMasterEntry(state, w).value)
  {
    MasterAtSame(groups, c.master.agreed, c.master.agreed + [w], |c.master.agreed|);
  }

  /** Once everyone is up to date, what is proposed can be agreed on at once. */
  lemma {:induction false} UpCanAnswer(groups: set<GroupId>, staff: Staff, c: Cluster, state: MasterState, key: Key)
    returns (c': Cluster, g: GroupId)
    requires Reached(groups, c) && AllUp(groups, staff, c) && Sees(groups, c, state) && groups != {}
    ensures Leads(Steps(groups), c, c') && g in groups && Answered(key, g) in c'.answers
    decreases ToGo(state, key)
  {
    var m, e := AnswerOrProposal(groups, staff, c, state, key);
    MovesAreRun(groups, staff, c, m);
    if e.None? {
      c' := m;
      g :| g in groups && Answered(key, g) in c'.answers;
    } else {
      var x := MasterWrote(m, staff.master, e.value, e.value);
      MasterWriteIsRun(groups, m, staff.master, e.value, e.value);
      LeadsThrough(Steps(groups), c, m, x);
      ReachedOn(groups, c, x);
      WriteKeepsUp(groups, staff, m, e.value, e.value);
      SeesWritten(groups, m, state, staff.master, e.value, e.value);
      c', g := UpCanAnswer(groups, staff, x, OnMasterEntry(state, e.value).value, key);
      LeadsThrough(Steps(groups), c, x, c');
    }
  }

  /** No replica is beyond the end of its log. */
  lemma NobodyIsBeyond(groups: set<GroupId>, c: Cluster)
    requires Reached(groups, c)
    ensures c.slaves.Keys == groups && A.WellFormed(c.master)
    ensures forall g :: g in groups ==> A.WellFormed(c.slaves[g])
  {
    ReachedHolds(groups, c);
    forall g | g in groups
      ensures A.WellFormed(c.slaves[g])
    {
      assert InvSlave(c.slaves[g], Selections(g, c.master.agreed));
    }
  }

  lemma MasterCatchesUp(groups: set<GroupId>, c: Cluster, p: nat) returns (c': Cluster)
    requires Reached(groups, c) && p < |c.master.seen|
    ensures Leads(Steps(groups), c, c') && c'.slaves == c.slaves && IsUp(c'.master, p)
  {
    var k := |c.master.agreed|;
    NobodyIsBeyond(groups, c);
    c' := c.(master := c.master.(seen := c.master.seen[p := k]),
             selected := c.selected + SelectionsIn(c.master.agreed, c.master.seen[p], k));
    assert A.Advances(c.master, c'.master, p, k);
    assert MasterAdvances(c, c', p, k);
    LeadsToItself(Steps(groups), c);
    LeadsOn(Steps(groups), c, c, c');
  }

  lemma SlaveCatchesUp(groups: set<GroupId>, c: Cluster, g: GroupId, p: nat) returns (c': Cluster)
    requires Reached(groups, c) && g in groups && g in c.slaves && p < |c.slaves[g].seen|
    ensures Leads(Steps(groups), c, c') && c'.master == c.master
    ensures c'.slaves == c.slaves[g := c.slaves[g].(seen := c.slaves[g].seen[p := |c.slaves[g].agreed|])]
  {
    var log := c.slaves[g];
    var k := |log.agreed|;
    NobodyIsBeyond(groups, c);
    c' := c.(slaves := c.slaves[g := log.(seen := log.seen[p := k])],
             changed := c.changed + ConfirmationsIn(g, log.agreed, log.seen[p], k));
    assert A.Advances(log, c'.slaves[g], p, k);
    assert SlaveAdvances(c, c', g, p, k);
    LeadsToItself(Steps(groups), c);
    LeadsOn(Steps(groups), c, c, c');
  }

  ghost predicate Posted(staff: Staff, c: Cluster, g: GroupId) {
    g in staff.slaves && g in c.slaves && staff.slaves[g] < |c.slaves[g].seen|
  }

  /** There is someone at every post. */
  ghost predicate Staffed(groups: set<GroupId>, staff: Staff, c: Cluster) {
    && staff.slaves.Keys == groups == c.slaves.Keys && staff.master < |c.master.seen|
    && forall g {:trigger Posted(staff, c, g)} :: g in groups ==> Posted(staff, c, g)
  }

  /** The slaves of the groups that are left catch up, one after the other. */
  lemma {:induction false} SlavesCatchUp(groups: set<GroupId>, staff: Staff, c: Cluster, rest: set<GroupId>)
    returns (c': Cluster)
    requires Reached(groups, c) && Staffed(groups, staff, c) && IsUp(c.master, staff.master) && rest <= groups
    requires forall g :: g in groups - rest ==> SlaveIsUp(staff, c, g)
    ensures Leads(Steps(groups), c, c') && AllUp(groups, staff, c')
    decreases rest
  {
    if rest == {} {
      c' := c;
      LeadsToItself(Steps(groups), c);
    } else {
      var g :| g in rest;
      assert Posted(staff, c, g);
      var m := SlaveCatchesUp(groups, c, g, staff.slaves[g]);
      ReachedOn(groups, c, m);
      forall h | h in groups
        ensures Posted(staff, m, h)
        ensures h in groups - (rest - {g}) ==> SlaveIsUp(staff, m, h)
      {
        assert Posted(staff, c, h);
        assert h in groups - rest ==> SlaveIsUp(staff, c, h);
      }
      c' := SlavesCatchUp(groups, staff, m, rest - {g});
      LeadsThrough(Steps(groups), c, m, c');
    }
  }

  /**
   From every reachable state, whatever messages were lost and however far everyone lags, every key
   can still come to be answered, if what is offered for an index can be agreed on and delivered.
  */
  lemma EveryKeyCanBeAnswered(groups: set<GroupId>, staff: Staff, c: Cluster, key: Key)
    returns (c': Cluster, g: GroupId)
    requires Reached(groups, c) && Staffed(groups, staff, c) && groups != {}
    ensures Leads(Steps(groups), c, c') && g in groups && Answered(key, g) in c'.answers
  {
    var x := MasterCatchesUp(groups, c, staff.master);
    ReachedOn(groups, c, x);
    forall h | h in groups
      ensures Posted(staff, x, h)
    {
      assert Posted(staff, c, h);
    }
    var y := SlavesCatchUp(groups, staff, x, groups);
    LeadsThrough(Steps(groups), c, x, y);
    ReachedOn(groups, c, y);
    var state := SomethingIsSeen(groups, y);
    c', g := UpCanAnswer(groups, staff, y, state, key);
    LeadsThrough(Steps(groups), c, y, c');
  }
}
