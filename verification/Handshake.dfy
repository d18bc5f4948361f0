/**
 Masters and slave groups together. The masters deliver one agreed log, each slave group its own;
 between them go selections (new ranges for a group, of some generation) and confirmations (the
 group has adopted a generation). Messages may be lost, reordered and repeated.
*/
module Handshake {
  import opened Wrappers
  import opened Paths
  import opened Entries
  import opened KeySpaceRanges
  import opened KeySpaceManagers
  import opened SlaveKeySpaceManagers
  import A = AgreedLogs

  datatype ChangedMsg = ChangedMsg(group: GroupId, generation: nat)

  datatype Answered = Answered(key: Key, group: GroupId)

  // `selected` and `changed` are all messages ever sent, `answers` what clients were ever told.
  datatype Cluster = Cluster(
    master: A.AgreedLog,
    slaves: map<GroupId, A.AgreedLog>,
    selected: set<SelectedMsg>,
    changed: set<ChangedMsg>,
    answers: set<Answered>)

  function InitCluster(groups: set<GroupId>, masters: nat, replicas: nat): Cluster {
    Cluster(A.InitLog(masters), map g | g in groups :: A.InitLog(replicas), {}, {}, {})
  }

  // ----- The states after the first n entries of a log -----

  function InitMaster(groups: set<GroupId>): MasterState {
    map g | g in groups :: KeySpace([], 0)
  }

  function MasterAt(groups: set<GroupId>, entries: seq<Entry>, n: nat): Option<MasterState>
    requires n <= |entries|
  {
    if n == 0 then Some(InitMaster(groups))
    else
      var before := MasterAt(groups, entries, n - 1);
      if before.None? then None else OnMasterEntry(before.value, entries[n - 1])
  }

  function SlaveAt(entries: seq<Entry>, n: nat): Option<SlaveState>
    requires n <= |entries|
  {
    if n == 0 then Some(INIT_SLAVE)
    else
      var before := SlaveAt(entries, n - 1);
      if before.None? then None else OnSlaveEntry(before.value, entries[n - 1])
  }

  lemma {:induction false} MasterAtSame(groups: set<GroupId>, xs: seq<Entry>, ys: seq<Entry>, n: nat)
    requires n <= |xs| && xs <= ys
    ensures MasterAt(groups, ys, n) == MasterAt(groups, xs, n)
  {
    if n > 0 {
      MasterAtSame(groups, xs, ys, n - 1);
    }
  }

  // ----- Steps -----

  /** A find-key task runs at master replica p. */
  ghost predicate FindKey(
    groups: set<GroupId>, c: Cluster, c': Cluster, p: nat, order: seq<GroupId>, key: Key, retries: nat)
  {
    && p < |c.master.seen| && c.master.seen[p] <= |c.master.agreed|
    && var state := MasterAt(groups, c.master.agreed, c.master.seen[p]);
      && state.Some?
      && (forall g :: g in order <==> g in state.value)
      && match FindKeyRun(state.value, order, key, retries)
         case Answer(g) => c' == c.(answers := c.answers + {Answered(key, g)})
         case Resend(msg) => c' == c.(selected := c.selected + {msg})
         case Assign(e) => A.Offers(c.master, c'.master, p, e) && c' == c.(master := c'.master)
         case Refuse => c' == c
         case WaitForFree => c' == c
  }

  /** A confirmation reaches master replica p, or the task it started runs again. */
  ghost predicate HandleChanged(groups: set<GroupId>, c: Cluster, c': Cluster, p: nat, msg: ChangedMsg) {
    && p < |c.master.seen| && c.master.seen[p] <= |c.master.agreed| && msg in c.changed
    && var state := MasterAt(groups, c.master.agreed, c.master.seen[p]);
      && state.Some?
      && var e := KeySpaceChangedRun(state.value, msg.group, msg.generation);
        if e.Some? then A.Offers(c.master, c'.master, p, e.value) && c' == c.(master := c'.master) else c' == c
  }

  ghost predicate MasterDecides(c: Cluster, c': Cluster, e: Entry) {
    A.Decides(c.master, c'.master, e) && c' == c.(master := c'.master)
  }

  /** What delivering the entries from lo up to hi sends to the slave groups. */
  ghost function SelectionsIn(entries: seq<Entry>, lo: nat, hi: nat): set<SelectedMsg> {
    set i | lo <= i < hi && i < |entries| && entries[i].Selected? ::
      SelectedMsg(entries[i].group, entries[i].newRanges, entries[i].generation)
  }

  ghost predicate MasterAdvances(c: Cluster, c': Cluster, p: nat, k: nat) {
    && A.Advances(c.master, c'.master, p, k)
    && c' == c.(master := c'.master, selected := c.selected + SelectionsIn(c.master.agreed, c.master.seen[p], k))
  }

  /** A selection reaches replica p of slave group g, or the task it started runs again. */
  ghost predicate HandleSelected(c: Cluster, c': Cluster, g: GroupId, p: nat, msg: SelectedMsg) {
    && g in c.slaves && msg in c.selected && msg.group == g
    && var log := c.slaves[g];
      && p < |log.seen| && log.seen[p] <= |log.agreed|
      && var state := SlaveAt(log.agreed, log.seen[p]);
        && state.Some?
        && match KeySpaceChangeRun(state.value, msg.ranges, msg.generation)
           case Ignore => c' == c
           case Confirm(generation) => c' == c.(changed := c.changed + {ChangedMsg(g, generation)})
           case Adopt(e) =>
             && g in c'.slaves
             && A.Offers(log, c'.slaves[g], p, e)
             && c' == c.(slaves := c.slaves[g := c'.slaves[g]])
  }

  ghost predicate SlaveDecides(c: Cluster, c': Cluster, g: GroupId, e: Entry) {
    && g in c.slaves && g in c'.slaves
    && A.Decides(c.slaves[g], c'.slaves[g], e)
    && c' == c.(slaves := c.slaves[g := c'.slaves[g]])
  }

  ghost function ConfirmationsIn(g: GroupId, entries: seq<Entry>, lo: nat, hi: nat): set<ChangedMsg> {
    set i | lo <= i < hi && i < |entries| && entries[i].Changed? :: ChangedMsg(g, entries[i].generation)
  }

  ghost predicate SlaveAdvances(c: Cluster, c': Cluster, g: GroupId, p: nat, k: nat) {
    && g in c.slaves && g in c'.slaves
    && A.Advances(c.slaves[g], c'.slaves[g], p, k)
    && c' == c.(slaves := c.slaves[g := c'.slaves[g]],
                changed := c.changed + ConfirmationsIn(g, c.slaves[g].agreed, c.slaves[g].seen[p], k))
  }

  ghost predicate MasterStep(groups: set<GroupId>, c: Cluster, c': Cluster) {
    || (exists p, order, key, retries :: FindKey(groups, c, c', p, order, key, retries))
    || (exists p, msg :: HandleChanged(groups, c, c', p, msg))
    || (exists e :: MasterDecides(c, c', e))
    || (exists p, k :: MasterAdvances(c, c', p, k))
  }

  ghost predicate SlaveStep(c: Cluster, c': Cluster) {
    || (exists g, p, msg :: HandleSelected(c, c', g, p, msg))
    || (exists g, e :: SlaveDecides(c, c', g, e))
    || (exists g, p, k :: SlaveAdvances(c, c', g, p, k))
  }

  ghost predicate Next(groups: set<GroupId>, c: Cluster, c': Cluster) {
    MasterStep(groups, c, c') || SlaveStep(c, c')
  }

  ghost function Steps(groups: set<GroupId>): Relation<Cluster> {
    (c, c') => Next(groups, c, c')
  }

  /** The cluster at the end of some run, whatever the numbers of masters and of slaves in a group. */
  ghost predicate Reached(groups: set<GroupId>, c: Cluster) {
    exists masters: nat, replicas: nat :: Leads(Steps(groups), InitCluster(groups, masters, replicas), c)
  }

  // ----- What was selected for a group -----

  /** The range lists selected for g by the first n entries, one for each generation from 1 on. */
  function History(g: GroupId, entries: seq<Entry>, n: nat): seq<seq<Range>>
    requires n <= |entries|
  {
    if n == 0 then []
    else
      History(g, entries, n - 1)
      + if entries[n - 1].Selected? && entries[n - 1].group == g then [entries[n - 1].newRanges] else []
  }

  function Last(h: seq<seq<Range>>): seq<Range> {
    if h == [] then [] else h[|h| - 1]
  }

  function Previous(h: seq<seq<Range>>): seq<Range> {
    if |h| < 2 then [] else h[|h| - 2]
  }

  lemma {:induction false} HistorySame(g: GroupId, xs: seq<Entry>, ys: seq<Entry>, n: nat)
    requires n <= |xs| && xs <= ys
    ensures History(g, ys, n) == History(g, xs, n)
  {
    if n > 0 {
      HistorySame(g, xs, ys, n - 1);
    }
  }

  lemma {:induction false} HistoryGrows(g: GroupId, entries: seq<Entry>, m: nat, n: nat)
    requires m <= n <= |entries|
    ensures History(g, entries, m) <= History(g, entries, n)
    decreases n
  {
    if m < n {
      HistoryGrows(g, entries, m, n - 1);
    }
  }

  type Histories = map<GroupId, seq<seq<Range>>>

  function HistoriesAt(groups: set<GroupId>, entries: seq<Entry>, n: nat): Histories
    requires n <= |entries|
  {
    map g | g in groups :: History(g, entries, n)
  }

  function Selections(g: GroupId, entries: seq<Entry>): seq<seq<Range>> {
    History(g, entries, |entries|)
  }

  // ----- The invariant -----

  // How many generations each slave group has adopted: its log holds nothing else.
  ghost function Adopted(slaves: map<GroupId, A.AgreedLog>): map<GroupId, nat> {
    map g | g in slaves :: |slaves[g].agreed|
  }

  ghost predicate NoLess(adopted: map<GroupId, nat>, adopted': map<GroupId, nat>) {
    && adopted.Keys == adopted'.Keys
    && forall g :: g in adopted ==> adopted[g] <= adopted'[g]
  }

  ghost predicate AddsTable(h: seq<seq<Range>>, i: nat) {
    i < |h| && |h[i]| == i + 1 && IsWholeTable(h[i][i])
  }

  ghost predicate Continues(h: seq<seq<Range>>, i: nat, j: nat) {
    i <= j < |h| && h[i] <= h[j]
  }

  /** Each generation of a group extends the one before by one whole table. */
  ghost predicate Growing(h: seq<seq<Range>>) {
    && (forall i: nat {:trigger AddsTable(h, i)} :: i < |h| ==> AddsTable(h, i))
    && (forall i: nat, j: nat {:trigger Continues(h, i, j)} :: i <= j < |h| ==> Continues(h, i, j))
  }

  /** The state of a group, given its history; it is only steady once the group has adopted it. */
  ghost predicate Shape(s: GroupState, h: seq<seq<Range>>, adopted: nat) {
    && s.generation == |h|
    && CurrentRanges(s) == Last(h)
    && (s.NewKeySpace? ==> h != [] && s.ranges == Previous(h))
    && |h| <= adopted + if s.KeySpace? then 0 else 1
  }

  predicate SameTable(r: Range, q: Range) {
    r.database == q.database && r.table == q.table
  }

  /** The i-th range of one list and the j-th of another are for different tables. */
  predicate Clash(rs: seq<Range>, i: nat, qs: seq<Range>, j: nat) {
    i < |rs| && j < |qs| && SameTable(rs[i], qs[j])
  }

  /** No table is assigned twice, within a group or across groups. */
  ghost predicate Disjoint(hs: Histories) {
    forall g, h, i: nat, j: nat {:trigger Clash(Last(hs[g]), i, Last(hs[h]), j)} ::
      g in hs && h in hs && Clash(Last(hs[g]), i, Last(hs[h]), j) ==> g == h && i == j
  }

  ghost predicate Fits(s: GroupState, h: seq<seq<Range>>, adopted: nat) {
    Growing(h) && Shape(s, h, adopted)
  }

  ghost predicate GoodState(state: MasterState, hs: Histories, adopted: map<GroupId, nat>) {
    && state.Keys == hs.Keys == adopted.Keys
    && (forall g :: g in state ==> Fits(state[g], hs[g], adopted[g]))
    && Disjoint(hs)
  }

  ghost predicate Good(groups: set<GroupId>, entries: seq<Entry>, n: nat, adopted: map<GroupId, nat>)
    requires n <= |entries|
  {
    && MasterAt(groups, entries, n).Some?
    && GoodState(MasterAt(groups, entries, n).value, HistoriesAt(groups, entries, n), adopted)
  }

  /** What a master replica may propose, having delivered the first n entries. */
  ghost predicate MayOffer(groups: set<GroupId>, entries: seq<Entry>, n: nat, e: Entry, adopted: map<GroupId, nat>)
    requires n <= |entries|
  {
    && MasterAt(groups, entries, n).Some?
    && MayPropose(MasterAt(groups, entries, n).value, e, adopted)
  }

  ghost predicate Fresh(state: MasterState, ranges: seq<Range>, newRanges: seq<Range>, key: Key) {
    && newRanges == ranges + [WholeTable(key)]
    && NobodyHas(state, key)
  }

  ghost predicate MayPropose(state: MasterState, e: Entry, adopted: map<GroupId, nat>) {
    match e
    case Selected(g, newRanges, generation) =>
      && g in state && state[g].KeySpace? && generation == state[g].generation + 1
      && exists key :: Fresh(state, state[g].ranges, newRanges, key)
    case Commit(g, generation) =>
      && g in state && state[g].NewKeySpace? && state[g].generation == generation
      && g in adopted && generation <= adopted[g]
    case _ => false
  }

  ghost predicate InvMaster(groups: set<GroupId>, master: A.AgreedLog, adopted: map<GroupId, nat>)
  {
    && A.WellFormed(master)
    && (forall n: nat :: n <= |master.agreed| ==> Good(groups, master.agreed, n, adopted))
    && (forall o {:trigger MayOffer(groups, master.agreed, o.index, o.entry, adopted)} ::
          o in master.offers ==> MayOffer(groups, master.agreed, o.index, o.entry, adopted))
  }

  /** The entry with which a group of history h adopts generation i + 1. */
  ghost predicate Adopts(e: Entry, h: seq<seq<Range>>, i: nat) {
    i < |h| && e == Changed(h[i], i + 1)
  }

  ghost predicate InvSlave(log: A.AgreedLog, h: seq<seq<Range>>) {
    && A.WellFormed(log)
    && (forall o :: o in log.offers ==> Adopts(o.entry, h, o.index))
  }

  ghost predicate InvSlaves(groups: set<GroupId>, slaves: map<GroupId, A.AgreedLog>, master: seq<Entry>)
    requires slaves.Keys == groups
  {
    forall g :: g in groups ==> InvSlave(slaves[g], Selections(g, master))
  }

  ghost predicate IsSelection(m: SelectedMsg, h: seq<seq<Range>>) {
    0 < m.generation <= |h| && m.ranges == h[m.generation - 1]
  }

  ghost predicate InvSelected(groups: set<GroupId>, selected: set<SelectedMsg>, master: seq<Entry>) {
    forall m :: m in selected ==> m.group in groups && IsSelection(m, Selections(m.group, master))
  }

  ghost predicate InvChanged(changed: set<ChangedMsg>, adopted: map<GroupId, nat>) {
    forall m :: m in changed ==> m.group in adopted && m.generation <= adopted[m.group]
  }

  /** The group has adopted a generation that covers the key. */
  ghost predicate AdoptedCovers(log: seq<Entry>, key: Key) {
    exists i :: 0 <= i < |log| && log[i].Changed? && Covers(log[i].newRanges, key)
  }

  ghost predicate InvAnswers(answers: set<Answered>, slaves: map<GroupId, A.AgreedLog>) {
    forall a :: a in answers ==> a.group in slaves && AdoptedCovers(slaves[a.group].agreed, a.key)
  }

  ghost predicate Inv(groups: set<GroupId>, c: Cluster) {
    && c.slaves.Keys == groups
    && InvMaster(groups, c.master, Adopted(c.slaves))
    && InvSlaves(groups, c.slaves, c.master.agreed)
    && InvSelected(groups, c.selected, c.master.agreed)
    && InvChanged(c.changed, Adopted(c.slaves))
    && InvAnswers(c.answers, c.slaves)
  }

  lemma InitHolds(groups: set<GroupId>, masters: nat, replicas: nat)
    ensures Inv(groups, InitCluster(groups, masters, replicas))
  {
  }

  // ----- Facts about prefixes -----

  lemma SelectionsGrow(g: GroupId, xs: seq<Entry>, ys: seq<Entry>, n: nat)
    requires n <= |xs| && xs <= ys
    ensures History(g, xs, n) <= Selections(g, ys)
  {
    HistorySame(g, xs, ys, n);
    HistoryGrows(g, ys, n, |ys|);
  }

  lemma GoodStateSame(state: MasterState, hs: Histories, adopted: map<GroupId, nat>, adopted': map<GroupId, nat>)
    requires GoodState(state, hs, adopted) && NoLess(adopted, adopted')
    ensures GoodState(state, hs, adopted')
  {
  }

  lemma GoodSame(
    groups: set<GroupId>, xs: seq<Entry>, ys: seq<Entry>, n: nat, adopted: map<GroupId, nat>,
    adopted': map<GroupId, nat>)
    requires n <= |xs| && xs <= ys && NoLess(adopted, adopted')
    requires Good(groups, xs, n, adopted)
    ensures Good(groups, ys, n, adopted')
  {
    MasterAtSame(groups, xs, ys, n);
    HistoriesSame(groups, xs, ys, n);
    GoodStateSame(MasterAt(groups, xs, n).value, HistoriesAt(groups, xs, n), adopted, adopted');
  }

  lemma HistoriesSame(groups: set<GroupId>, xs: seq<Entry>, ys: seq<Entry>, n: nat)
    requires n <= |xs| && xs <= ys
    ensures HistoriesAt(groups, ys, n) == HistoriesAt(groups, xs, n)
  {
    forall g | g in groups
      ensures History(g, ys, n) == History(g, xs, n)
    {
      HistorySame(g, xs, ys, n);
    }
  }

  lemma MayOfferSame(
    groups: set<GroupId>, xs: seq<Entry>, ys: seq<Entry>, n: nat, e: Entry,
    adopted: map<GroupId, nat>, adopted': map<GroupId, nat>)
    requires n <= |xs| && xs <= ys && NoLess(adopted, adopted')
    requires MayOffer(groups, xs, n, e, adopted)
    ensures MayOffer(groups, ys, n, e, adopted')
  {
    MasterAtSame(groups, xs, ys, n);
  }

  lemma LastIsWhole(h: seq<seq<Range>>, i: nat)
    requires Growing(h) && i < |Last(h)|
    ensures |Last(h)| == |h| && IsWholeTable(Last(h)[i])
  {
    assert AddsTable(h, |h| - 1);
    assert AddsTable(h, i) && Continues(h, i, |h| - 1);
  }

  lemma GrowingPrefix(h: seq<seq<Range>>, n: nat)
    requires Growing(h) && n <= |h|
    ensures Growing(h[..n])
  {
    forall i: nat | i < n
      ensures AddsTable(h[..n], i)
    {
      assert AddsTable(h, i);
    }
    forall i: nat, j: nat | i <= j < n
      ensures Continues(h[..n], i, j)
    {
      assert Continues(h, i, j);
    }
  }

  lemma LastCounts(h: seq<seq<Range>>)
    requires Growing(h)
    ensures |Last(h)| == |h|
  {
    assert h != [] ==> AddsTable(h, |h| - 1);
  }

  lemma InvMasterSame(
    groups: set<GroupId>, master: A.AgreedLog, ys: seq<Entry>, adopted: map<GroupId, nat>, adopted': map<GroupId, nat>)
    requires InvMaster(groups, master, adopted) && master.agreed <= ys && NoLess(adopted, adopted')
    ensures forall n: nat :: n <= |master.agreed| ==> Good(groups, ys, n, adopted')
    ensures forall o {:trigger MayOffer(groups, ys, o.index, o.entry, adopted')} ::
      o in master.offers ==> MayOffer(groups, ys, o.index, o.entry, adopted')
  {
    forall n: nat | n <= |master.agreed|
      ensures Good(groups, ys, n, adopted')
    {
      GoodSame(groups, master.agreed, ys, n, adopted, adopted');
    }
    forall o {:trigger MayOffer(groups, ys, o.index, o.entry, adopted')} | o in master.offers
      ensures MayOffer(groups, ys, o.index, o.entry, adopted')
    {
      MayOfferSame(groups, master.agreed, ys, o.index, o.entry, adopted, adopted');
    }
  }

  // ----- What the masters agree on -----

  lemma GoodAfterCommit(state: MasterState, hs: Histories, e: Entry, adopted: map<GroupId, nat>)
    requires GoodState(state, hs, adopted) && MayPropose(state, e, adopted) && e.Commit?
    ensures OnMasterEntry(state, e).Some? && GoodState(OnMasterEntry(state, e).value, hs, adopted)
  {
  }

  lemma GrowsByOne(h: seq<seq<Range>>, key: Key)
    requires Growing(h)
    ensures Growing(h + [Last(h) + [WholeTable(key)]])
  {
    var h' := h + [Last(h) + [WholeTable(key)]];
    LastCounts(h);
    forall i: nat | i < |h'|
      ensures AddsTable(h', i)
    {
      assert i < |h| ==> AddsTable(h, i);
    }
    forall i: nat, j: nat | i <= j < |h'|
      ensures Continues(h', i, j)
    {
      assert i < |h| ==> Continues(h, i, if j < |h| then j else |h| - 1);
    }
  }

  lemma FreshIsDisjoint(h: seq<seq<Range>>, key: Key, i: nat)
    requires Growing(h) && i < |Last(h)| && !Covers(Last(h), key)
    ensures !SameTable(Last(h)[i], WholeTable(key)) && !SameTable(WholeTable(key), Last(h)[i])
  {
    LastIsWhole(h, i);
    assert !Within(Last(h)[i], key);
  }

  /** xs may be the new list of its group, and ys too when both are of the same group. */
  lemma NewClashIsOld(h: seq<seq<Range>>, k: seq<seq<Range>>, xs: seq<Range>, ys: seq<Range>, key: Key, i: nat, j: nat)
    requires Growing(h) && !Covers(Last(h), key) && Growing(k) && !Covers(Last(k), key)
    requires xs == Last(h) || xs == Last(h) + [WholeTable(key)]
    requires ys == Last(k) || ys == Last(k) + [WholeTable(key)]
    requires Clash(xs, i, ys, j)
    ensures Clash(Last(h), i, Last(k), j) || (i == |Last(h)| && j == |Last(k)|)
  {
    if i < |Last(h)| && j == |Last(k)| {
      FreshIsDisjoint(h, key, i);
    } else if i == |Last(h)| && j < |Last(k)| {
      FreshIsDisjoint(k, key, j);
    }
  }

  lemma DisjointAfterSelection(hs: Histories, g: GroupId, newRanges: seq<Range>, key: Key)
    requires Disjoint(hs) && g in hs && newRanges == Last(hs[g]) + [WholeTable(key)]
    requires forall h :: h in hs ==> Growing(hs[h]) && !Covers(Last(hs[h]), key)
    ensures Disjoint(hs[g := hs[g] + [newRanges]])
  {
    var hs' := hs[g := hs[g] + [newRanges]];
    forall a, b, i: nat, j: nat {:trigger Clash(Last(hs'[a]), i, Last(hs'[b]), j)} |
      a in hs' && b in hs' && Clash(Last(hs'[a]), i, Last(hs'[b]), j)
      ensures a == b && i == j
    {
      NewClashIsOld(hs[a], hs[b], Last(hs'[a]), Last(hs'[b]), key, i, j);
    }
  }

  lemma FitsAfterSelection(s: GroupState, h: seq<seq<Range>>, adopted: nat, key: Key)
    requires Fits(s, h, adopted) && s.KeySpace?
    ensures
      var newRanges := s.ranges + [WholeTable(key)];
      Fits(NewKeySpace(s.ranges, newRanges, s.generation + 1), h + [newRanges], adopted)
  {
    GrowsByOne(h, key);
  }

  lemma GoodReplaced(
    state: MasterState, hs: Histories, adopted: map<GroupId, nat>, g: GroupId, s: GroupState, h: seq<seq<Range>>)
    requires GoodState(state, hs, adopted) && g in state
    requires Fits(s, h, adopted[g]) && Disjoint(hs[g := h])
    ensures GoodState(state[g := s], hs[g := h], adopted)
  {
  }

  lemma GoodHasNoKey(state: MasterState, hs: Histories, adopted: map<GroupId, nat>, key: Key)
    requires GoodState(state, hs, adopted)
    requires NobodyHas(state, key)
    ensures forall h :: h in hs ==> Growing(hs[h]) && !Covers(Last(hs[h]), key)
  {
    forall h | h in hs
      ensures Growing(hs[h]) && !Covers(Last(hs[h]), key)
    {
      assert Fits(state[h], hs[h], adopted[h]);
    }
  }

  lemma GoodAfterSelection(state: MasterState, hs: Histories, e: Entry, adopted: map<GroupId, nat>)
    requires GoodState(state, hs, adopted) && MayPropose(state, e, adopted) && e.Selected?
    ensures OnMasterEntry(state, e).Some?
    ensures e.group in hs
    ensures GoodState(OnMasterEntry(state, e).value, hs[e.group := hs[e.group] + [e.newRanges]], adopted)
  {
    var g, newRanges := e.group, e.newRanges;
    var key :| Fresh(state, state[g].ranges, newRanges, key);
    GoodHasNoKey(state, hs, adopted, key);
    assert Fits(state[g], hs[g], adopted[g]);
    DisjointAfterSelection(hs, g, newRanges, key);
    FitsAfterSelection(state[g], hs[g], adopted[g], key);
    GoodReplaced(
      state, hs, adopted, g, NewKeySpace(state[g].ranges, newRanges, state[g].generation + 1), hs[g] + [newRanges]);
  }

  function HistoriesAfter(hs: Histories, e: Entry): Histories {
    if e.Selected? && e.group in hs then hs[e.group := hs[e.group] + [e.newRanges]] else hs
  }

  lemma GoodAfter(state: MasterState, hs: Histories, e: Entry, adopted: map<GroupId, nat>)
    requires GoodState(state, hs, adopted) && MayPropose(state, e, adopted)
    ensures OnMasterEntry(state, e).Some?
    ensures GoodState(OnMasterEntry(state, e).value, HistoriesAfter(hs, e), adopted)
  {
    if e.Commit? {
      GoodAfterCommit(state, hs, e, adopted);
    } else {
      GoodAfterSelection(state, hs, e, adopted);
    }
  }

  lemma HistoriesNext(groups: set<GroupId>, entries: seq<Entry>, n: nat)
    requires n < |entries|
    ensures HistoriesAt(groups, entries, n + 1) == HistoriesAfter(HistoriesAt(groups, entries, n), entries[n])
  {
    var e, hs, hs' := entries[n], HistoriesAt(groups, entries, n), HistoriesAt(groups, entries, n + 1);
    forall g | g in groups
      ensures hs'[g] == if e.Selected? && e.group == g then hs[g] + [e.newRanges] else hs[g]
    {
    }
    assert hs' == HistoriesAfter(hs, e);
  }

  /** Whatever is agreed was allowed when it was offered, so it is still in order when delivered. */
  lemma GoodNext(groups: set<GroupId>, entries: seq<Entry>, n: nat, adopted: map<GroupId, nat>)
    requires n < |entries|
    requires Good(groups, entries, n, adopted)
    requires MayOffer(groups, entries, n, entries[n], adopted)
    ensures Good(groups, entries, n + 1, adopted)
  {
    GoodAfter(MasterAt(groups, entries, n).value, HistoriesAt(groups, entries, n), entries[n], adopted);
    HistoriesNext(groups, entries, n);
  }

  // ----- What the slave groups agree on -----

  lemma {:induction false} SlaveIsAt(log: A.AgreedLog, h: seq<seq<Range>>, n: nat)
    requires InvSlave(log, h) && n <= |log.agreed|
    ensures n <= |h| && SlaveAt(log.agreed, n) == Some(SlaveState(Last(h[..n]), n))
  {
    if n > 0 {
      SlaveIsAt(log, h, n - 1);
      SlaveAdopts(log, h, n - 1);
    }
  }

  lemma SlaveAdopts(log: A.AgreedLog, h: seq<seq<Range>>, i: nat)
    requires InvSlave(log, h) && i < |log.agreed|
    ensures Adopts(log.agreed[i], h, i)
  {
    assert A.Offer(i, log.agreed[i]) in log.offers;
  }

  // ----- Steps of the masters -----

  /** Everything but the masters' log is as before. */
  lemma MasterLogKeeps(groups: set<GroupId>, c: Cluster, c': Cluster)
    requires Inv(groups, c) && c' == c.(master := c'.master)
    requires c.master.agreed <= c'.master.agreed
    requires InvMaster(groups, c'.master, Adopted(c.slaves))
    ensures Inv(groups, c')
  {
    forall g | g in groups
      ensures Selections(g, c.master.agreed) <= Selections(g, c'.master.agreed)
    {
      SelectionsGrow(g, c.master.agreed, c'.master.agreed, |c.master.agreed|);
    }
  }

  lemma OfferKeeps(groups: set<GroupId>, c: Cluster, c': Cluster, p: nat, e: Entry)
    requires Inv(groups, c) && c' == c.(master := c'.master)
    requires A.Offers(c.master, c'.master, p, e)
    requires MayOffer(groups, c.master.agreed, c.master.seen[p], e, Adopted(c.slaves))
    ensures Inv(groups, c')
  {
    MasterLogKeeps(groups, c, c');
  }

  lemma DecidedIsGood(groups: set<GroupId>, xs: seq<Entry>, adopted: map<GroupId, nat>, e: Entry)
    requires Good(groups, xs, |xs|, adopted) && MayOffer(groups, xs, |xs|, e, adopted)
    ensures Good(groups, xs + [e], |xs| + 1, adopted)
  {
    var ys := xs + [e];
    GoodSame(groups, xs, ys, |xs|, adopted, adopted);
    MayOfferSame(groups, xs, ys, |xs|, e, adopted, adopted);
    assert ys[|xs|] == e;
    GoodNext(groups, ys, |xs|, adopted);
  }

  lemma OfferedMayBeOffered(groups: set<GroupId>, master: A.AgreedLog, adopted: map<GroupId, nat>, o: A.Offer)
    requires InvMaster(groups, master, adopted) && o in master.offers
    ensures MayOffer(groups, master.agreed, o.index, o.entry, adopted)
    ensures Good(groups, master.agreed, o.index, adopted)
  {
  }

  lemma OfferedIsGood(groups: set<GroupId>, master: A.AgreedLog, adopted: map<GroupId, nat>, e: Entry)
    requires InvMaster(groups, master, adopted) && A.Offer(|master.agreed|, e) in master.offers
    ensures Good(groups, master.agreed + [e], |master.agreed| + 1, adopted)
  {
    OfferedMayBeOffered(groups, master, adopted, A.Offer(|master.agreed|, e));
    DecidedIsGood(groups, master.agreed, adopted, e);
  }

  lemma DecisionKeeps(
    groups: set<GroupId>, master: A.AgreedLog, master': A.AgreedLog, adopted: map<GroupId, nat>, e: Entry)
    requires InvMaster(groups, master, adopted) && A.Decides(master, master', e)
    ensures InvMaster(groups, master', adopted)
  {
    InvMasterSame(groups, master, master'.agreed, adopted, adopted);
    OfferedIsGood(groups, master, adopted, e);
  }

  lemma MasterDecidesKeeps(groups: set<GroupId>, c: Cluster, c': Cluster, e: Entry)
    requires Inv(groups, c) && MasterDecides(c, c', e)
    ensures Inv(groups, c')
  {
    DecisionKeeps(groups, c.master, c'.master, Adopted(c.slaves), e);
    MasterLogKeeps(groups, c, c');
  }

  lemma ResendIsSelection(groups: set<GroupId>, entries: seq<Entry>, n: nat, adopted: map<GroupId, nat>, g: GroupId)
    requires n <= |entries| && Good(groups, entries, n, adopted) && g in groups
    requires MasterAt(groups, entries, n).value[g].NewKeySpace?
    ensures
      var s := MasterAt(groups, entries, n).value[g];
      IsSelection(SelectedMsg(g, s.newRanges, s.generation), Selections(g, entries))
  {
    SelectionsGrow(g, entries, entries, n);
    assert Fits(MasterAt(groups, entries, n).value[g], History(g, entries, n), adopted[g]);
  }

  lemma SteadyAdopted(s: GroupState, h: seq<seq<Range>>, h': seq<seq<Range>>, log: A.AgreedLog, key: Key)
    requires Fits(s, h, |log.agreed|) && h <= h' && InvSlave(log, h')
    requires s.KeySpace? && Covers(s.ranges, key)
    ensures AdoptedCovers(log.agreed, key)
  {
    SlaveAdopts(log, h', |h| - 1);
  }

  lemma SteadyIsAdopted(
    groups: set<GroupId>, entries: seq<Entry>, n: nat, adopted: map<GroupId, nat>, g: GroupId, log: A.AgreedLog,
    key: Key)
    requires n <= |entries| && Good(groups, entries, n, adopted) && g in groups
    requires InvSlave(log, Selections(g, entries)) && adopted[g] == |log.agreed|
    requires MasterAt(groups, entries, n).value[g].KeySpace?
    requires Covers(MasterAt(groups, entries, n).value[g].ranges, key)
    ensures AdoptedCovers(log.agreed, key)
  {
    var s, hs := MasterAt(groups, entries, n).value[g], HistoriesAt(groups, entries, n);
    SelectionsGrow(g, entries, entries, n);
    assert Fits(s, hs[g], adopted[g]);
    SteadyAdopted(s, hs[g], Selections(g, entries), log, key);
  }

  lemma AssignMayBeOffered(state: MasterState, order: seq<GroupId>, key: Key, retries: nat, adopted: map<GroupId, nat>)
    requires forall g :: g in order <==> g in state
    requires FindKeyRun(state, order, key, retries).Assign?
    ensures MayPropose(state, FindKeyRun(state, order, key, retries).entry, adopted)
  {
    SearchFinds(state, order, key);
    var g := FirstFree(state, order).value;
    assert Fresh(state, state[g].ranges, state[g].ranges + [WholeTable(key)], key);
  }

  /** What a find-key task does is within its rights. */
  ghost predicate Rightful(groups: set<GroupId>, c: Cluster, n: nat, key: Key, action: FindAction)
    requires n <= |c.master.agreed|
  {
    match action
    case Answer(g) => g in c.slaves && AdoptedCovers(c.slaves[g].agreed, key)
    case Resend(msg) => msg.group in groups && IsSelection(msg, Selections(msg.group, c.master.agreed))
    case Assign(e) => MayOffer(groups, c.master.agreed, n, e, Adopted(c.slaves))
    case _ => true
  }

  lemma MasterIsGood(groups: set<GroupId>, c: Cluster, n: nat)
    requires Inv(groups, c) && n <= |c.master.agreed|
    ensures Good(groups, c.master.agreed, n, Adopted(c.slaves))
    ensures MasterAt(groups, c.master.agreed, n).value.Keys == groups == c.slaves.Keys
  {
  }

  lemma AnswerIsRightful(groups: set<GroupId>, c: Cluster, n: nat, state: MasterState, g: GroupId, key: Key)
    requires Inv(groups, c) && n <= |c.master.agreed| && MasterAt(groups, c.master.agreed, n) == Some(state)
    requires g in state && state[g].KeySpace? && Covers(state[g].ranges, key)
    ensures g in c.slaves && AdoptedCovers(c.slaves[g].agreed, key)
  {
    MasterIsGood(groups, c, n);
    assert InvSlave(c.slaves[g], Selections(g, c.master.agreed));
    SteadyIsAdopted(groups, c.master.agreed, n, Adopted(c.slaves), g, c.slaves[g], key);
  }

  lemma ResendIsRightful(groups: set<GroupId>, c: Cluster, n: nat, state: MasterState, g: GroupId)
    requires Inv(groups, c) && n <= |c.master.agreed| && MasterAt(groups, c.master.agreed, n) == Some(state)
    requires g in state && state[g].NewKeySpace?
    ensures g in groups
    ensures IsSelection(SelectedMsg(g, state[g].newRanges, state[g].generation), Selections(g, c.master.agreed))
  {
    MasterIsGood(groups, c, n);
    ResendIsSelection(groups, c.master.agreed, n, Adopted(c.slaves), g);
  }

  /** What a find-key task answers and resends, it has in its state. */
  lemma FindKeyActs(state: MasterState, order: seq<GroupId>, key: Key, retries: nat)
    requires forall g :: g in order <==> g in state
    ensures
      var action := FindKeyRun(state, order, key, retries);
      && (action.Answer? ==>
            action.group in state && state[action.group].KeySpace? && Covers(state[action.group].ranges, key))
      && (action.Resend? ==>
            var g := action.msg.group;
            && g in state && state[g].NewKeySpace?
            && action.msg == SelectedMsg(g, state[g].newRanges, state[g].generation))
  {
    SearchFinds(state, order, key);
  }

  lemma FindKeyIsRightful(
    groups: set<GroupId>, c: Cluster, n: nat, state: MasterState, order: seq<GroupId>, key: Key, retries: nat)
    requires Inv(groups, c) && n <= |c.master.agreed| && MasterAt(groups, c.master.agreed, n) == Some(state)
    requires forall g :: g in order <==> g in state
    ensures Rightful(groups, c, n, key, FindKeyRun(state, order, key, retries))
  {
    FindKeyActs(state, order, key, retries);
    match FindKeyRun(state, order, key, retries)
    case Answer(g) => AnswerIsRightful(groups, c, n, state, g, key);
    case Resend(msg) => ResendIsRightful(groups, c, n, state, msg.group);
    case Assign(e) => AssignMayBeOffered(state, order, key, retries, Adopted(c.slaves));
    case _ =>
  }

  lemma FindKeyKeeps(groups: set<GroupId>, c: Cluster, c': Cluster, p: nat, order: seq<GroupId>, key: Key, retries: nat)
    requires Inv(groups, c) && FindKey(groups, c, c', p, order, key, retries)
    ensures Inv(groups, c')
  {
    var n := c.master.seen[p];
    var state := MasterAt(groups, c.master.agreed, n).value;
    FindKeyIsRightful(groups, c, n, state, order, key, retries);
    var action := FindKeyRun(state, order, key, retries);
    if action.Assign? {
      OfferKeeps(groups, c, c', p, action.entry);
    }
  }

  lemma HandleChangedKeeps(groups: set<GroupId>, c: Cluster, c': Cluster, p: nat, msg: ChangedMsg)
    requires Inv(groups, c) && HandleChanged(groups, c, c', p, msg)
    ensures Inv(groups, c')
  {
    var n := c.master.seen[p];
    var e := KeySpaceChangedRun(MasterAt(groups, c.master.agreed, n).value, msg.group, msg.generation);
    if e.Some? {
      OfferKeeps(groups, c, c', p, e.value);
    }
  }

  lemma SelectionIsInHistory(groups: set<GroupId>, entries: seq<Entry>, i: nat, adopted: map<GroupId, nat>)
    requires i < |entries| && entries[i].Selected?
    requires Good(groups, entries, i, adopted) && MayOffer(groups, entries, i, entries[i], adopted)
    ensures
      var e := entries[i];
      e.group in groups && IsSelection(SelectedMsg(e.group, e.newRanges, e.generation), Selections(e.group, entries))
  {
    var g := entries[i].group;
    assert Fits(MasterAt(groups, entries, i).value[g], History(g, entries, i), adopted[g]);
    SelectionsGrow(g, entries, entries, i + 1);
  }

  lemma MasterAdvancesKeeps(groups: set<GroupId>, c: Cluster, c': Cluster, p: nat, k: nat)
    requires Inv(groups, c) && MasterAdvances(c, c', p, k)
    ensures Inv(groups, c')
  {
    forall i: nat | i < |c.master.agreed| && c.master.agreed[i].Selected?
      ensures
        var e := c.master.agreed[i];
        && e.group in groups
        && IsSelection(SelectedMsg(e.group, e.newRanges, e.generation), Selections(e.group, c.master.agreed))
    {
      var o := A.Offer(i, c.master.agreed[i]);
      assert MayOffer(groups, c.master.agreed, o.index, o.entry, Adopted(c.slaves));
      SelectionIsInHistory(groups, c.master.agreed, i, Adopted(c.slaves));
    }
  }

  lemma MasterStepKeeps(groups: set<GroupId>, c: Cluster, c': Cluster)
    requires Inv(groups, c) && MasterStep(groups, c, c')
    ensures Inv(groups, c')
  {
    if p, order, key, retries :| FindKey(groups, c, c', p, order, key, retries) {
      FindKeyKeeps(groups, c, c', p, order, key, retries);
    } else if p, msg :| HandleChanged(groups, c, c', p, msg) {
      HandleChangedKeeps(groups, c, c', p, msg);
    } else if e :| MasterDecides(c, c', e) {
      MasterDecidesKeeps(groups, c, c', e);
    } else {
      var p, k :| MasterAdvances(c, c', p, k);
      MasterAdvancesKeeps(groups, c, c', p, k);
    }
  }

  // ----- Steps of the slave groups -----

  /** Only group g's log differs, and it may have grown. */
  lemma SlaveLogKeeps(groups: set<GroupId>, c: Cluster, c': Cluster, g: GroupId, log: A.AgreedLog)
    requires Inv(groups, c) && g in c.slaves && c' == c.(slaves := c.slaves[g := log])
    requires c.slaves[g].agreed <= log.agreed
    requires InvSlave(log, Selections(g, c.master.agreed))
    ensures Inv(groups, c')
  {
    var adopted, adopted' := Adopted(c.slaves), Adopted(c'.slaves);
    assert NoLess(adopted, adopted');
    InvMasterSame(groups, c.master, c.master.agreed, adopted, adopted');
    forall a | a in c.answers
      ensures AdoptedCovers(c'.slaves[a.group].agreed, a.key)
    {
      var xs := c.slaves[a.group].agreed;
      var i :| 0 <= i < |xs| && xs[i].Changed? && Covers(xs[i].newRanges, a.key);
      assert c'.slaves[a.group].agreed[i] == xs[i];
    }
  }

  /** What a slave does about a selection: it adopts the next generation or confirms its own. */
  lemma SelectedIsRightful(log: A.AgreedLog, h: seq<seq<Range>>, n: nat, msg: SelectedMsg)
    requires InvSlave(log, h) && n <= |log.agreed| && IsSelection(msg, h)
    ensures SlaveAt(log.agreed, n).Some?
    ensures
      var action := KeySpaceChangeRun(SlaveAt(log.agreed, n).value, msg.ranges, msg.generation);
      && (action.Adopt? ==> Adopts(action.entry, h, n))
      && (action.Adopt? <==> msg.generation == n + 1)
      && (action.Confirm? ==> action.generation == n)
      && (action.Confirm? <==> msg.generation == n)
  {
    SlaveIsAt(log, h, n);
  }

  lemma HandleSelectedKeeps(groups: set<GroupId>, c: Cluster, c': Cluster, g: GroupId, p: nat, msg: SelectedMsg)
    requires Inv(groups, c) && HandleSelected(c, c', g, p, msg)
    ensures Inv(groups, c')
  {
    var log, h := c.slaves[g], Selections(g, c.master.agreed);
    SelectedIsRightful(log, h, log.seen[p], msg);
    if KeySpaceChangeRun(SlaveAt(log.agreed, log.seen[p]).value, msg.ranges, msg.generation).Adopt? {
      SlaveLogKeeps(groups, c, c', g, c'.slaves[g]);
    }
  }

  lemma SlaveDecidesKeeps(groups: set<GroupId>, c: Cluster, c': Cluster, g: GroupId, e: Entry)
    requires Inv(groups, c) && SlaveDecides(c, c', g, e)
    ensures Inv(groups, c')
  {
    assert InvSlave(c.slaves[g], Selections(g, c.master.agreed));
    SlaveLogKeeps(groups, c, c', g, c'.slaves[g]);
  }

  lemma SlaveAdvancesKeeps(groups: set<GroupId>, c: Cluster, c': Cluster, g: GroupId, p: nat, k: nat)
    requires Inv(groups, c) && SlaveAdvances(c, c', g, p, k)
    ensures Inv(groups, c')
  {
    var log, h := c.slaves[g], Selections(g, c.master.agreed);
    assert InvSlave(log, h);
    SlaveLogKeeps(groups, c, c.(slaves := c'.slaves), g, c'.slaves[g]);
    forall i: nat | i < |log.agreed|
      ensures Adopts(log.agreed[i], h, i)
    {
      SlaveAdopts(log, h, i);
    }
  }

  lemma SlaveStepKeeps(groups: set<GroupId>, c: Cluster, c': Cluster)
    requires Inv(groups, c) && SlaveStep(c, c')
    ensures Inv(groups, c')
  {
    if g, p, msg :| HandleSelected(c, c', g, p, msg) {
      HandleSelectedKeeps(groups, c, c', g, p, msg);
    } else if g, e :| SlaveDecides(c, c', g, e) {
      SlaveDecidesKeeps(groups, c, c', g, e);
    } else {
      var g, p, k :| SlaveAdvances(c, c', g, p, k);
      SlaveAdvancesKeeps(groups, c, c', g, p, k);
    }
  }

  lemma NextKeeps(groups: set<GroupId>, c: Cluster, c': Cluster)
    requires Inv(groups, c) && Next(groups, c, c')
    ensures Inv(groups, c')
  {
    if MasterStep(groups, c, c') {
      MasterStepKeeps(groups, c, c');
    } else {
      SlaveStepKeeps(groups, c, c');
    }
  }

  lemma ReachedHolds(groups: set<GroupId>, c: Cluster)
    requires Reached(groups, c)
    ensures Inv(groups, c)
  {
    var masters: nat, replicas: nat :| Leads(Steps(groups), InitCluster(groups, masters, replicas), c);
    InitHolds(groups, masters, replicas);
    forall c, c' | Inv(groups, c) && Next(groups, c, c')
      ensures Inv(groups, c')
    {
      NextKeeps(groups, c, c');
    }
    LeadsKeeps(Steps(groups), c => Inv(groups, c), InitCluster(groups, masters, replicas), c);
  }

  lemma ReachedNext(groups: set<GroupId>, c: Cluster, c': Cluster)
    requires Reached(groups, c) && Next(groups, c, c')
    ensures Reached(groups, c')
  {
    var masters: nat, replicas: nat :| Leads(Steps(groups), InitCluster(groups, masters, replicas), c);
    LeadsOn(Steps(groups), InitCluster(groups, masters, replicas), c, c');
  }
}
