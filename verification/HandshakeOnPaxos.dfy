/**
 Masters and slave groups on their Paxos replicas. Every server computes its state from what its own
 log has delivered and proposes through its own instances; what holds of the handshake over agreed
 logs holds of these servers.
*/
module HandshakeOnPaxos {
  import opened Wrappers
  import opened Paths
  import opened Entries
  import opened KeySpaceRanges
  import opened KeySpaceManagers
  import opened SlaveKeySpaceManagers
  import opened PaxosProtocol
  import opened PaxosAgreement
  import opened PaxosLogs
  import R = ReplicatedLog
  import H = Handshake
  import S = KeySpaceSafety
  import A = AgreedLogs

  // The group of the masters, and the group that each slave group is.
  datatype Sites = Sites(groups: set<GroupId>, master: Group, slave: Group)

  datatype Servers = Servers(
    masters: R.Replicas,
    slaves: map<GroupId, R.Replicas>,
    selected: set<SelectedMsg>,
    changed: set<H.ChangedMsg>,
    answers: set<H.Answered>)

  function InitServers(sites: Sites): Servers {
    Servers(R.InitReplicas(sites.master), map g | g in sites.groups :: R.InitReplicas(sites.slave), {}, {}, {})
  }

  predicate AllSound(sites: Sites) {
    && sites.master.threshold > 0 && Sound(sites.master)
    && sites.slave.threshold > 0 && Sound(sites.slave)
  }

  // ----- Steps -----

  /** The state of master p, from what it has delivered. */
  function MasterOf(sites: Sites, c: Servers, p: nat): Option<MasterState>
    requires p < |c.masters.logs|
  {
    var entries := Delivered(c.masters.logs[p]);
    H.MasterAt(sites.groups, entries, |entries|)
  }

  function SlaveOf(c: Servers, g: GroupId, p: nat): Option<SlaveState>
    requires g in c.slaves && p < |c.slaves[g].logs|
  {
    var entries := Delivered(c.slaves[g].logs[p]);
    H.SlaveAt(entries, |entries|)
  }

  ghost predicate FindKey(
    sites: Sites, c: Servers, c': Servers, p: nat, order: seq<GroupId>, key: Key, retries: nat, number: nat)
  {
    && p < |c.masters.logs|
    && var state := MasterOf(sites, c, p);
      && state.Some?
      && (forall g :: g in order <==> g in state.value)
      && match FindKeyRun(state.value, order, key, retries)
         case Answer(g) => c' == c.(answers := c.answers + {H.Answered(key, g)})
         case Resend(msg) => c' == c.(selected := c.selected + {msg})
         case Assign(e) =>
           R.Proposing(sites.master, c.masters, c'.masters, p, number, e) && c' == c.(masters := c'.masters)
         case Refuse => c' == c
         case WaitForFree => c' == c
  }

  ghost predicate HandleChanged(sites: Sites, c: Servers, c': Servers, p: nat, msg: H.ChangedMsg, number: nat) {
    && p < |c.masters.logs| && msg in c.changed
    && var state := MasterOf(sites, c, p);
      && state.Some?
      && var e := KeySpaceChangedRun(state.value, msg.group, msg.generation);
        if e.Some? then
          R.Proposing(sites.master, c.masters, c'.masters, p, number, e.value) && c' == c.(masters := c'.masters)
        else c' == c
  }

  /** Master p receives a message or syncs, and sends the selections that it thereby delivers. */
  ghost predicate MasterWorks(sites: Sites, c: Servers, c': Servers, p: nat) {
    && p < |c.masters.logs| && p < |c'.masters.logs|
    && R.Working(sites.master, c.masters, c'.masters, p)
    && var before, after := c.masters.logs[p], c'.masters.logs[p];
      c' == c.(masters := c'.masters,
               selected := c.selected + H.SelectionsIn(Delivered(after), FirstHole(before), FirstHole(after)))
  }

  ghost predicate MasterLoses(sites: Sites, c: Servers, c': Servers) {
    && c' == c.(masters := c'.masters)
    && exists i, env :: R.Losing(sites.master, c.masters, c'.masters, i, env)
  }

  ghost predicate HandleSelected(
    sites: Sites, c: Servers, c': Servers, g: GroupId, p: nat, msg: SelectedMsg, number: nat)
  {
    && g in c.slaves && msg in c.selected && msg.group == g && p < |c.slaves[g].logs|
    && var state := SlaveOf(c, g, p);
      && state.Some?
      && match KeySpaceChangeRun(state.value, msg.ranges, msg.generation)
         case Ignore => c' == c
         case Confirm(generation) => c' == c.(changed := c.changed + {H.ChangedMsg(g, generation)})
         case Adopt(e) =>
           && g in c'.slaves
           && R.Proposing(sites.slave, c.slaves[g], c'.slaves[g], p, number, e)
           && c' == c.(slaves := c.slaves[g := c'.slaves[g]])
  }

  /** The same of replica p of slave group g, which sends confirmations. */
  ghost predicate SlaveWorks(sites: Sites, c: Servers, c': Servers, g: GroupId, p: nat) {
    && g in c.slaves && g in c'.slaves && p < |c.slaves[g].logs| && p < |c'.slaves[g].logs|
    && R.Working(sites.slave, c.slaves[g], c'.slaves[g], p)
    && var before, after := c.slaves[g].logs[p], c'.slaves[g].logs[p];
      c' == c.(slaves := c.slaves[g := c'.slaves[g]],
               changed := c.changed + H.ConfirmationsIn(g, Delivered(after), FirstHole(before), FirstHole(after)))
  }

  ghost predicate SlaveLoses(sites: Sites, c: Servers, c': Servers, g: GroupId) {
    && g in c.slaves && g in c'.slaves && c' == c.(slaves := c.slaves[g := c'.slaves[g]])
    && exists i, env :: R.Losing(sites.slave, c.slaves[g], c'.slaves[g], i, env)
  }

  ghost predicate MasterStep(sites: Sites, c: Servers, c': Servers) {
    || (exists p, order, key, retries, number :: FindKey(sites, c, c', p, order, key, retries, number))
    || (exists p, msg, number :: HandleChanged(sites, c, c', p, msg, number))
    || (exists p :: MasterWorks(sites, c, c', p))
    || MasterLoses(sites, c, c')
  }

  ghost predicate SlaveStep(sites: Sites, c: Servers, c': Servers) {
    || (exists g, p, msg, number :: HandleSelected(sites, c, c', g, p, msg, number))
    || (exists g, p :: SlaveWorks(sites, c, c', g, p))
    || (exists g :: SlaveLoses(sites, c, c', g))
  }

  ghost function Steps(sites: Sites): Relation<Servers> {
    (c, c') => MasterStep(sites, c, c') || SlaveStep(sites, c, c')
  }

  ghost predicate Reached(sites: Sites, c: Servers) {
    Leads(Steps(sites), InitServers(sites), c)
  }

  // ----- Each step is one of the handshake over agreed logs, or does not show -----

  ghost predicate SlaveIsSimulated(
    sites: Sites, slaves: map<GroupId, R.Replicas>, logs: map<GroupId, A.AgreedLog>, g: GroupId)
  {
    g in slaves && g in logs && R.Simulates(sites.slave, slaves[g], logs[g])
  }

  ghost predicate SlavesSimulate(sites: Sites, slaves: map<GroupId, R.Replicas>, logs: map<GroupId, A.AgreedLog>) {
    && slaves.Keys == logs.Keys == sites.groups
    && forall g {:trigger SlaveIsSimulated(sites, slaves, logs, g)} ::
         g in sites.groups ==> SlaveIsSimulated(sites, slaves, logs, g)
  }

  ghost predicate Simulates(sites: Sites, c: Servers, h: H.Cluster) {
    && R.Simulates(sites.master, c.masters, h.master)
    && SlavesSimulate(sites, c.slaves, h.slaves)
    && c.selected == h.selected && c.changed == h.changed && c.answers == h.answers
    && H.Reached(sites.groups, h)
  }

  lemma ClusterGoesOn(groups: set<GroupId>, h: H.Cluster, h': H.Cluster)
    requires H.Reached(groups, h) && (h' == h || H.Next(groups, h, h'))
    ensures H.Reached(groups, h')
  {
    if h' != h {
      H.ReachedNext(groups, h, h');
    }
  }

  lemma SameMasterState(sites: Sites, c: Servers, h: H.Cluster, p: nat)
    requires AllSound(sites) && Simulates(sites, c, h) && p < |c.masters.logs|
    ensures p < |h.master.seen| && h.master.seen[p] <= |h.master.agreed|
    ensures MasterOf(sites, c, p) == H.MasterAt(sites.groups, h.master.agreed, h.master.seen[p])
  {
    R.LogsAreAgreed(sites.master, c.masters, h.master, p);
    var entries := Delivered(c.masters.logs[p]);
    H.MasterAtSame(sites.groups, entries, h.master.agreed, |entries|);
  }

  lemma {:induction false} SlaveAtSame(xs: seq<Entry>, ys: seq<Entry>, n: nat)
    requires n <= |xs| && xs <= ys
    ensures H.SlaveAt(ys, n) == H.SlaveAt(xs, n)
  {
    if n > 0 {
      SlaveAtSame(xs, ys, n - 1);
    }
  }

  lemma SlaveSimulates(sites: Sites, c: Servers, h: H.Cluster, g: GroupId)
    requires Simulates(sites, c, h) && g in c.slaves
    ensures g in h.slaves && R.Simulates(sites.slave, c.slaves[g], h.slaves[g])
  {
    assert SlaveIsSimulated(sites, c.slaves, h.slaves, g);
  }

  lemma SameSlaveState(sites: Sites, c: Servers, h: H.Cluster, g: GroupId, p: nat)
    requires AllSound(sites) && Simulates(sites, c, h) && g in c.slaves && p < |c.slaves[g].logs|
    ensures g in h.slaves && p < |h.slaves[g].seen| && h.slaves[g].seen[p] <= |h.slaves[g].agreed|
    ensures SlaveOf(c, g, p) == H.SlaveAt(h.slaves[g].agreed, h.slaves[g].seen[p])
  {
    SlaveSimulates(sites, c, h, g);
    R.LogsAreAgreed(sites.slave, c.slaves[g], h.slaves[g], p);
    var entries := Delivered(c.slaves[g].logs[p]);
    SlaveAtSame(entries, h.slaves[g].agreed, |entries|);
  }

  lemma FindKeySimulates(
    sites: Sites, c: Servers, c': Servers, h: H.Cluster, p: nat, order: seq<GroupId>, key: Key, retries: nat,
    number: nat)
    returns (h': H.Cluster)
    requires AllSound(sites) && Simulates(sites, c, h) && FindKey(sites, c, c', p, order, key, retries, number)
    ensures Simulates(sites, c', h')
  {
    SameMasterState(sites, c, h, p);
    var action := FindKeyRun(MasterOf(sites, c, p).value, order, key, retries);
    var log := h.master;
    if action.Assign? {
      log := R.ProposingSimulates(sites.master, c.masters, c'.masters, h.master, p, number, action.entry);
    }
    h' := H.Cluster(log, h.slaves, c'.selected, h.changed, c'.answers);
    assert H.FindKey(sites.groups, h, h', p, order, key, retries);
    ClusterGoesOn(sites.groups, h, h');
  }

  lemma HandleChangedSimulates(
    sites: Sites, c: Servers, c': Servers, h: H.Cluster, p: nat, msg: H.ChangedMsg, number: nat)
    returns (h': H.Cluster)
    requires AllSound(sites) && Simulates(sites, c, h) && HandleChanged(sites, c, c', p, msg, number)
    ensures Simulates(sites, c', h')
  {
    SameMasterState(sites, c, h, p);
    var e := KeySpaceChangedRun(MasterOf(sites, c, p).value, msg.group, msg.generation);
    var log := h.master;
    if e.Some? {
      log := R.ProposingSimulates(sites.master, c.masters, c'.masters, h.master, p, number, e.value);
    }
    h' := h.(master := log);
    assert H.HandleChanged(sites.groups, h, h', p, msg);
    ClusterGoesOn(sites.groups, h, h');
  }

  lemma SameSelections(xs: seq<Entry>, ys: seq<Entry>, lo: nat, hi: nat)
    requires xs <= ys && hi <= |xs|
    ensures H.SelectionsIn(xs, lo, hi) == H.SelectionsIn(ys, lo, hi)
  {
  }

  lemma SameConfirmations(g: GroupId, xs: seq<Entry>, ys: seq<Entry>, lo: nat, hi: nat)
    requires xs <= ys && hi <= |xs|
    ensures H.ConfirmationsIn(g, xs, lo, hi) == H.ConfirmationsIn(g, ys, lo, hi)
  {
  }

  lemma MasterWorkSimulates(sites: Sites, c: Servers, c': Servers, h: H.Cluster, p: nat) returns (h': H.Cluster)
    requires AllSound(sites) && Simulates(sites, c, h) && MasterWorks(sites, c, c', p)
    ensures Simulates(sites, c', h')
  {
    var k := FirstHole(c'.masters.logs[p]);
    var log := R.WorkingShows(sites.master, c.masters, c'.masters, h.master, p);
    SameSelections(Delivered(c'.masters.logs[p]), log.agreed, FirstHole(c.masters.logs[p]), k);
    h' := H.Cluster(log, h.slaves, c'.selected, h.changed, h.answers);
    if A.Advances(h.master, log, p, k) {
      assert H.MasterAdvances(h, h', p, k);
    } else {
      var e :| A.Decides(h.master, log, e);
      assert H.MasterDecides(h, h', e);
    }
    ClusterGoesOn(sites.groups, h, h');
  }

  lemma MasterStepSimulates(sites: Sites, c: Servers, c': Servers, h: H.Cluster) returns (h': H.Cluster)
    requires AllSound(sites) && Simulates(sites, c, h) && MasterStep(sites, c, c')
    ensures Simulates(sites, c', h')
  {
    if p, order, key, retries, number :| FindKey(sites, c, c', p, order, key, retries, number) {
      h' := FindKeySimulates(sites, c, c', h, p, order, key, retries, number);
    } else if p, msg, number :| HandleChanged(sites, c, c', p, msg, number) {
      h' := HandleChangedSimulates(sites, c, c', h, p, msg, number);
    } else if p :| MasterWorks(sites, c, c', p) {
      h' := MasterWorkSimulates(sites, c, c', h, p);
    } else {
      var i, env :| R.Losing(sites.master, c.masters, c'.masters, i, env);
      R.LoseRefines(sites.master, c.masters, c'.masters, h.master, i, env);
      h' := h;
    }
  }

  lemma SlaveReplaced(
    sites: Sites, slaves: map<GroupId, R.Replicas>, logs: map<GroupId, A.AgreedLog>, g: GroupId,
    replicas: R.Replicas, log: A.AgreedLog)
    requires SlavesSimulate(sites, slaves, logs) && g in slaves && R.Simulates(sites.slave, replicas, log)
    ensures SlavesSimulate(sites, slaves[g := replicas], logs[g := log])
  {
    forall k | k in sites.groups
      ensures SlaveIsSimulated(sites, slaves[g := replicas], logs[g := log], k)
    {
      assert SlaveIsSimulated(sites, slaves, logs, k);
    }
  }

  /** What a slave does about a selection is the handshake's step, when it sees the same state. */
  lemma SelectedIsStep(
    sites: Sites, c: Servers, c': Servers, h: H.Cluster, g: GroupId, p: nat, msg: SelectedMsg, number: nat,
    log: A.AgreedLog)
    requires HandleSelected(sites, c, c', g, p, msg, number) && g in h.slaves
    requires c.selected == h.selected && c.changed == h.changed
    requires p < |h.slaves[g].seen| && h.slaves[g].seen[p] <= |h.slaves[g].agreed|
    requires SlaveOf(c, g, p) == H.SlaveAt(h.slaves[g].agreed, h.slaves[g].seen[p])
    requires
      var action := KeySpaceChangeRun(SlaveOf(c, g, p).value, msg.ranges, msg.generation);
      if action.Adopt? then A.Offers(h.slaves[g], log, p, action.entry) else log == h.slaves[g]
    ensures H.HandleSelected(h, h.(slaves := h.slaves[g := log], changed := c'.changed), g, p, msg)
  {
    assert h.slaves[g := h.slaves[g]] == h.slaves;
  }

  lemma HandleSelectedSimulates(
    sites: Sites, c: Servers, c': Servers, h: H.Cluster, g: GroupId, p: nat, msg: SelectedMsg, number: nat)
    returns (h': H.Cluster)
    requires AllSound(sites) && Simulates(sites, c, h) && HandleSelected(sites, c, c', g, p, msg, number)
    ensures Simulates(sites, c', h')
  {
    SameSlaveState(sites, c, h, g, p);
    SlaveSimulates(sites, c, h, g);
    var action := KeySpaceChangeRun(SlaveOf(c, g, p).value, msg.ranges, msg.generation);
    var replicas, log := c.slaves[g], h.slaves[g];
    if action.Adopt? {
      replicas := c'.slaves[g];
      log := R.ProposingSimulates(sites.slave, c.slaves[g], replicas, h.slaves[g], p, number, action.entry);
    }
    SelectedIsStep(sites, c, c', h, g, p, msg, number, log);
    SlaveReplaced(sites, c.slaves, h.slaves, g, replicas, log);
    assert c'.slaves == c.slaves[g := replicas];
    h' := h.(slaves := h.slaves[g := log], changed := c'.changed);
    ClusterGoesOn(sites.groups, h, h');
  }

  lemma SlaveWorkIsStep(h: H.Cluster, h': H.Cluster, g: GroupId, p: nat, before: Log, after: Log)
    requires g in h.slaves && g in h'.slaves && h'.slaves == h.slaves[g := h'.slaves[g]]
    requires p < |h.slaves[g].seen| && h.slaves[g].seen[p] == FirstHole(before)
    requires h' == h.(slaves := h'.slaves,
                      changed := h.changed
                                 + H.ConfirmationsIn(g, Delivered(after), FirstHole(before), FirstHole(after)))
    requires Delivered(after) <= h'.slaves[g].agreed
    requires A.Advances(h.slaves[g], h'.slaves[g], p, FirstHole(after))
             || (FirstHole(after) == FirstHole(before) && exists e :: A.Decides(h.slaves[g], h'.slaves[g], e))
    ensures H.SlaveStep(h, h')
  {
    SameConfirmations(g, Delivered(after), h'.slaves[g].agreed, FirstHole(before), FirstHole(after));
    if A.Advances(h.slaves[g], h'.slaves[g], p, FirstHole(after)) {
      assert H.SlaveAdvances(h, h', g, p, FirstHole(after));
    } else {
      var e :| A.Decides(h.slaves[g], h'.slaves[g], e);
      assert H.SlaveDecides(h, h', g, e);
    }
  }

  lemma SlaveWorkSimulates(sites: Sites, c: Servers, c': Servers, h: H.Cluster, g: GroupId, p: nat)
    returns (h': H.Cluster)
    requires AllSound(sites) && Simulates(sites, c, h) && SlaveWorks(sites, c, c', g, p)
    ensures Simulates(sites, c', h')
  {
    SlaveSimulates(sites, c, h, g);
    var log := R.WorkingShows(sites.slave, c.slaves[g], c'.slaves[g], h.slaves[g], p);
    SlaveReplaced(sites, c.slaves, h.slaves, g, c'.slaves[g], log);
    h' := h.(slaves := h.slaves[g := log], changed := c'.changed);
    SlaveWorkIsStep(h, h', g, p, c.slaves[g].logs[p], c'.slaves[g].logs[p]);
    ClusterGoesOn(sites.groups, h, h');
  }

  lemma SlaveLossSimulates(sites: Sites, c: Servers, c': Servers, h: H.Cluster, g: GroupId)
    requires AllSound(sites) && Simulates(sites, c, h) && SlaveLoses(sites, c, c', g)
    ensures Simulates(sites, c', h)
  {
    SlaveSimulates(sites, c, h, g);
    var i, env :| R.Losing(sites.slave, c.slaves[g], c'.slaves[g], i, env);
    R.LoseRefines(sites.slave, c.slaves[g], c'.slaves[g], h.slaves[g], i, env);
    SlaveReplaced(sites, c.slaves, h.slaves, g, c'.slaves[g], h.slaves[g]);
    assert h.slaves[g := h.slaves[g]] == h.slaves;
  }

  lemma SlaveStepSimulates(sites: Sites, c: Servers, c': Servers, h: H.Cluster) returns (h': H.Cluster)
    requires AllSound(sites) && Simulates(sites, c, h) && SlaveStep(sites, c, c')
    ensures Simulates(sites, c', h')
  {
    if g, p, msg, number :| HandleSelected(sites, c, c', g, p, msg, number) {
      h' := HandleSelectedSimulates(sites, c, c', h, g, p, msg, number);
    } else if g, p :| SlaveWorks(sites, c, c', g, p) {
      h' := SlaveWorkSimulates(sites, c, c', h, g, p);
    } else {
      var g :| SlaveLoses(sites, c, c', g);
      SlaveLossSimulates(sites, c, c', h, g);
      h' := h;
    }
  }

  lemma InitSimulates(sites: Sites)
    requires AllSound(sites)
    ensures Simulates(sites, InitServers(sites), H.InitCluster(sites.groups, sites.master.n, sites.slave.n))
  {
    var h := H.InitCluster(sites.groups, sites.master.n, sites.slave.n);
    R.InitSimulates(sites.master);
    R.InitSimulates(sites.slave);
    LeadsToItself(H.Steps(sites.groups), h);
  }

  /** Whatever the servers come to, a cluster over agreed logs can come to as well. */
  lemma ReachedSimulates(sites: Sites, c: Servers) returns (h: H.Cluster)
    requires AllSound(sites) && Reached(sites, c)
    ensures Simulates(sites, c, h)
  {
    var inv := (c: Servers) => exists h :: Simulates(sites, c, h);
    InitSimulates(sites);
    forall c, c' | inv(c) && Steps(sites)(c, c')
      ensures inv(c')
    {
      var h :| Simulates(sites, c, h);
      if MasterStep(sites, c, c') {
        var h' := MasterStepSimulates(sites, c, c', h);
      } else {
        var h' := SlaveStepSimulates(sites, c, c', h);
      }
    }
    LeadsKeeps(Steps(sites), inv, InitServers(sites), c);
    h :| Simulates(sites, c, h);
  }

  // ----- What holds of the servers -----

  /** No server's callbacks have failed an assertion, so all of them have a state. */
  lemma NoServerFails(sites: Sites, c: Servers)
    requires AllSound(sites) && Reached(sites, c)
    ensures |c.masters.logs| == sites.master.n && c.slaves.Keys == sites.groups
    ensures forall p: nat :: p < |c.masters.logs| ==> MasterOf(sites, c, p).Some?
    ensures forall g, p: nat :: g in c.slaves && p < |c.slaves[g].logs| ==> SlaveOf(c, g, p).Some?
  {
    var h := ReachedSimulates(sites, c);
    S.NoAssertionFails(sites.groups, h);
    forall p: nat | p < |c.masters.logs|
      ensures MasterOf(sites, c, p).Some?
    {
      SameMasterState(sites, c, h, p);
    }
    forall g, p: nat | g in c.slaves && p < |c.slaves[g].logs|
      ensures SlaveOf(c, g, p).Some?
    {
      SameSlaveState(sites, c, h, g, p);
    }
  }

  /** The Paxos instances of group g have chosen, for every index below n, a generation covering the key from x on. */
  ghost predicate ChosenCovers(sites: Sites, c: Servers, g: GroupId, x: nat, n: nat, key: Key) {
    && g in c.slaves && x < n
    && forall i: nat, e :: x <= i && R.ChosenAt(sites.slave, c.slaves[g], i, e) ==>
         i < n && e.Changed? && Covers(e.newRanges, key)
  }

  /**
   When any master has told a client that a group serves a key, the group's Paxos instances have
   chosen a generation that covers it, at some index x, and whatever they chose from there on does.
  */
  lemma AnswersAreChosen(sites: Sites, c: Servers, a: H.Answered)
    requires AllSound(sites) && Reached(sites, c) && a in c.answers
    ensures a.group in c.slaves
    ensures exists x: nat, n: nat, e ::
      ChosenCovers(sites, c, a.group, x, n, a.key) && R.ChosenAt(sites.slave, c.slaves[a.group], x, e)
  {
    var h := ReachedSimulates(sites, c);
    S.HandshakeSafety(sites.groups, h, a);
    var g, log := a.group, h.slaves[a.group];
    var x: nat :| S.CoveredFrom(log.agreed, x, a.key);
    SlaveSimulates(sites, c, h, g);
    forall i: nat, e | x <= i && R.ChosenAt(sites.slave, c.slaves[g], i, e)
      ensures i < |log.agreed| && e.Changed? && Covers(e.newRanges, a.key)
    {
      R.ChosenIsAgreed(sites.slave, c.slaves[g], log, i, e);
    }
    assert ChosenCovers(sites, c, g, x, |log.agreed|, a.key);
    assert R.ChosenAt(sites.slave, c.slaves[g], x, log.agreed[x]);
  }

  /** Where a master and a slave of a group have the same generation, they have the same ranges. */
  lemma SameGenerationSameRanges(sites: Sites, c: Servers, g: GroupId, p: nat, s: MasterState, q: nat, t: SlaveState)
    requires AllSound(sites) && Reached(sites, c)
    requires p < |c.masters.logs| && MasterOf(sites, c, p) == Some(s) && g in s
    requires g in c.slaves && q < |c.slaves[g].logs| && SlaveOf(c, g, q) == Some(t)
    requires s[g].generation == t.generation
    ensures CurrentRanges(s[g]) == t.ranges
  {
    var h := ReachedSimulates(sites, c);
    SameMasterState(sites, c, h, p);
    SameSlaveState(sites, c, h, g, q);
    S.EqualGenerationsEqualRanges(sites.groups, h, g, h.master.seen[p], s[g], h.slaves[g].seen[q], t);
  }

  /** Servers of two groups never both serve a key. */
  lemma OneGroupServes(
    sites: Sites, c: Servers, g: GroupId, p: nat, s: SlaveState, k: GroupId, q: nat, t: SlaveState, key: Key)
    requires AllSound(sites) && Reached(sites, c)
    requires g in c.slaves && p < |c.slaves[g].logs| && SlaveOf(c, g, p) == Some(s) && Covers(s.ranges, key)
    requires k in c.slaves && q < |c.slaves[k].logs| && SlaveOf(c, k, q) == Some(t) && Covers(t.ranges, key)
    ensures g == k
  {
    var h := ReachedSimulates(sites, c);
    SameSlaveState(sites, c, h, g, p);
    SameSlaveState(sites, c, h, k, q);
    S.OneGroupServes(sites.groups, h, g, h.slaves[g].seen[p], s, k, h.slaves[k].seen[q], t, key);
  }
}
