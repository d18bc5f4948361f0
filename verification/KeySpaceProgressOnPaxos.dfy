/**
 How masters and slave groups go on, on their Paxos replicas: what the tasks propose is taken through
 the Paxos instances of the one master and the one slave in each group that can finish rounds.
*/
module KeySpaceProgressOnPaxos {
  import opened Wrappers
  import opened Paths
  import opened Entries
  import opened KeySpaceRanges
  import opened KeySpaceManagers
  import opened SlaveKeySpaceManagers
  import opened PaxosLogs
  import opened ReplicaRuns
  import opened ReplicaProgress
  import opened HandshakeOnPaxos
  import opened KeySpaceProgress
  import R = ReplicatedLog
  import H = Handshake
  import A = AgreedLogs

  // ----- Whoever has learned has filled its log -----

  ghost predicate AllFilled(sites: Sites, c: Servers) {
    && LearnedIsFilled(sites.master, c.masters)
    && forall g :: g in c.slaves ==> LearnedIsFilled(sites.slave, c.slaves[g])
  }

  lemma TaskKeepsFilled(sites: Sites, c: Servers, c': Servers)
    requires LearnedIsFilled(sites.master, c.masters)
    requires c'.masters == c.masters
             || exists p, number, e :: R.Proposing(sites.master, c.masters, c'.masters, p, number, e)
    ensures LearnedIsFilled(sites.master, c'.masters)
  {
    if p, number, e :| R.Proposing(sites.master, c.masters, c'.masters, p, number, e) {
      ProposingKeepsLearned(sites.master, c.masters, c'.masters, p, number, e);
    }
  }

  lemma MasterStepKeepsFilled(sites: Sites, c: Servers, c': Servers)
    requires LearnedIsFilled(sites.master, c.masters) && MasterStep(sites, c, c')
    ensures LearnedIsFilled(sites.master, c'.masters) && c'.slaves == c.slaves
  {
    if p, order, key, retries, number :| FindKey(sites, c, c', p, order, key, retries, number) {
      TaskKeepsFilled(sites, c, c');
    } else if p, msg, number :| HandleChanged(sites, c, c', p, msg, number) {
      TaskKeepsFilled(sites, c, c');
    } else if p :| MasterWorks(sites, c, c', p) {
      WorkingKeepsLearned(sites.master, c.masters, c'.masters, p);
    } else {
      var i, env :| R.Losing(sites.master, c.masters, c'.masters, i, env);
      LosingKeepsLearned(sites.master, c.masters, c'.masters, i, env);
    }
  }

  lemma SlaveStepKeepsFilled(sites: Sites, c: Servers, c': Servers)
    requires AllFilled(sites, c) && SlaveStep(sites, c, c')
    ensures AllFilled(sites, c')
  {
    if g, p, msg, number :| HandleSelected(sites, c, c', g, p, msg, number) {
      if e :| R.Proposing(sites.slave, c.slaves[g], c'.slaves[g], p, number, e) {
        ProposingKeepsLearned(sites.slave, c.slaves[g], c'.slaves[g], p, number, e);
      }
    } else if g, p :| SlaveWorks(sites, c, c', g, p) {
      WorkingKeepsLearned(sites.slave, c.slaves[g], c'.slaves[g], p);
    } else {
      var g :| SlaveLoses(sites, c, c', g);
      var i, env :| R.Losing(sites.slave, c.slaves[g], c'.slaves[g], i, env);
      LosingKeepsLearned(sites.slave, c.slaves[g], c'.slaves[g], i, env);
    }
  }

  lemma ReachedIsFilled(sites: Sites, c: Servers)
    requires Reached(sites, c)
    ensures AllFilled(sites, c)
  {
    InitLearned(sites.master);
    InitLearned(sites.slave);
    forall x, y | AllFilled(sites, x) && Steps(sites)(x, y)
      ensures AllFilled(sites, y)
    {
      if MasterStep(sites, x, y) {
        MasterStepKeepsFilled(sites, x, y);
      } else {
        SlaveStepKeepsFilled(sites, x, y);
      }
    }
    LeadsKeeps(Steps(sites), (x: Servers) => AllFilled(sites, x), InitServers(sites), c);
  }

  // ----- From the replicas to the masters -----

  ghost predicate MasterMay(sites: Sites, c: Servers, p: nat, e: Entry) {
    && p < |c.masters.logs| && MasterOf(sites, c, p).Some?
    && StateProposes(MasterOf(sites, c, p).value, c.changed, e)
  }

  lemma MasterProposing(sites: Sites, c: Servers, p: nat, e: Entry, masters: R.Replicas)
    requires MasterMay(sites, c, p, e) && ProposesAt(sites.master, c.masters, masters, p, e)
    ensures MasterStep(sites, c, c.(masters := masters))
  {
    var c' := c.(masters := masters);
    var number :| R.Proposing(sites.master, c.masters, masters, p, number, e);
    var state := MasterOf(sites, c, p).value;
    if order, key :| Assigns(state, order, key, e) {
      assert FindKey(sites, c, c', p, order, key, 0, number);
    } else {
      var msg :| msg in c.changed && KeySpaceChangedRun(state, msg.group, msg.generation) == Some(e);
      assert HandleChanged(sites, c, c', p, msg, number);
    }
  }

  /** The servers after the masters' replicas have become these and master p has sent what it came to deliver. */
  ghost function MasterWorked(c: Servers, masters: R.Replicas, p: nat): Servers
    requires p < |c.masters.logs| && p < |masters.logs|
  {
    var before, after := c.masters.logs[p], masters.logs[p];
    c.(masters := masters,
       selected := c.selected + H.SelectionsIn(Delivered(after), FirstHole(before), FirstHole(after)))
  }

  lemma MasterWorkIsStep(sites: Sites, c: Servers, masters: R.Replicas, p: nat)
    requires p < |c.masters.logs| && p < |masters.logs| && R.Working(sites.master, c.masters, masters, p)
    ensures MasterStep(sites, c, MasterWorked(c, masters, p))
  {
    assert MasterWorks(sites, c, MasterWorked(c, masters, p), p);
  }

  lemma NothingIsSelected(c: Servers, masters: R.Replicas, p: nat)
    requires p < |c.masters.logs| && masters.logs == c.masters.logs
    ensures MasterWorked(c, masters, p) == c.(masters := masters)
  {
    assert H.SelectionsIn(Delivered(masters.logs[p]), FirstHole(masters.logs[p]), FirstHole(masters.logs[p])) == {};
  }

  lemma MasterIdles(sites: Sites, c: Servers, masters: R.Replicas)
    requires Idles(sites.master, c.masters, masters)
    ensures MasterStep(sites, c, c.(masters := masters))
  {
    var d: nat :| d < |c.masters.logs| && R.Working(sites.master, c.masters, masters, d);
    MasterWorkIsStep(sites, c, masters, d);
    NothingIsSelected(c, masters, d);
  }

  /** What the replicas do without writing, the masters do without delivering. */
  lemma SoloOnMasters(sites: Sites, c: Servers, p: nat, e: Entry, m: R.Replicas)
    requires MasterMay(sites, c, p, e) && Leads(SoloMoves(sites.master, p, e), c.masters, m)
    ensures Leads(Steps(sites), c, c.(masters := m))
  {
    var inv := (x: R.Replicas) => x.logs == c.masters.logs && Leads(Steps(sites), c, c.(masters := x));
    LeadsToItself(Steps(sites), c);
    assert c.(masters := c.masters) == c;
    forall x, y | inv(x) && SoloMoves(sites.master, p, e)(x, y)
      ensures inv(y)
    {
      var t := c.(masters := x);
      if Idles(sites.master, x, y) {
        MasterIdles(sites, t, y);
      } else if DropsOne(sites.master, x, y) {
        assert MasterLoses(sites, t, t.(masters := y));
      } else {
        MasterProposing(sites, t, p, e, y);
      }
      LeadsOn(Steps(sites), c, t, t.(masters := y));
    }
    LeadsKeeps(SoloMoves(sites.master, p, e), inv, c.masters, m);
  }

  lemma MasterWorkGoes(sites: Sites, c: Servers, m: R.Replicas, masters: R.Replicas, p: nat)
    requires Leads(Steps(sites), c, c.(masters := m)) && m.logs == c.masters.logs
    requires p < |m.logs| && p < |masters.logs| && R.Working(sites.master, m, masters, p)
    ensures Leads(Steps(sites), c, MasterWorked(c, masters, p))
  {
    MasterWorkIsStep(sites, c.(masters := m), masters, p);
    LeadsOn(Steps(sites), c, c.(masters := m), MasterWorked(c, masters, p));
  }

  // ----- From the replicas to a slave group -----

  ghost predicate SlaveMay(c: Servers, g: GroupId, p: nat, e: Entry) {
    && g in c.slaves && p < |c.slaves[g].logs| && SlaveOf(c, g, p).Some?
    && exists msg :: msg in c.selected && msg.group == g
                     && KeySpaceChangeRun(SlaveOf(c, g, p).value, msg.ranges, msg.generation) == Adopt(e)
  }

  function WithSlaves(c: Servers, g: GroupId, slaves: R.Replicas): Servers {
    c.(slaves := c.slaves[g := slaves])
  }

  lemma SlaveProposing(sites: Sites, c: Servers, g: GroupId, p: nat, e: Entry, slaves: R.Replicas)
    requires SlaveMay(c, g, p, e) && ProposesAt(sites.slave, c.slaves[g], slaves, p, e)
    ensures SlaveStep(sites, c, WithSlaves(c, g, slaves))
  {
    var number :| R.Proposing(sites.slave, c.slaves[g], slaves, p, number, e);
    var msg :| msg in c.selected && msg.group == g
               && KeySpaceChangeRun(SlaveOf(c, g, p).value, msg.ranges, msg.generation) == Adopt(e);
    assert HandleSelected(sites, c, WithSlaves(c, g, slaves), g, p, msg, number);
  }

  /** The servers after group g's replicas have become these and slave p has sent what it came to deliver. */
  ghost function SlaveWorked(c: Servers, g: GroupId, slaves: R.Replicas, p: nat): Servers
    requires g in c.slaves && p < |c.slaves[g].logs| && p < |slaves.logs|
  {
    var before, after := c.slaves[g].logs[p], slaves.logs[p];
    WithSlaves(c, g, slaves).(
      changed := c.changed + H.ConfirmationsIn(g, Delivered(after), FirstHole(before), FirstHole(after)))
  }

  lemma SlaveWorkIsStep(sites: Sites, c: Servers, g: GroupId, slaves: R.Replicas, p: nat)
    requires g in c.slaves && p < |c.slaves[g].logs| && p < |slaves.logs|
    requires R.Working(sites.slave, c.slaves[g], slaves, p)
    ensures SlaveStep(sites, c, SlaveWorked(c, g, slaves, p))
  {
    assert SlaveWorks(sites, c, SlaveWorked(c, g, slaves, p), g, p);
  }

  lemma NothingIsConfirmed(c: Servers, g: GroupId, slaves: R.Replicas, p: nat)
    requires g in c.slaves && p < |c.slaves[g].logs| && slaves.logs == c.slaves[g].logs
    ensures SlaveWorked(c, g, slaves, p) == WithSlaves(c, g, slaves)
  {
    var log := slaves.logs[p];
    assert H.ConfirmationsIn(g, Delivered(log), FirstHole(log), FirstHole(log)) == {};
  }

  lemma SlaveIdles(sites: Sites, c: Servers, g: GroupId, slaves: R.Replicas)
    requires g in c.slaves && Idles(sites.slave, c.slaves[g], slaves)
    ensures SlaveStep(sites, c, WithSlaves(c, g, slaves))
  {
    var d: nat :| d < |c.slaves[g].logs| && R.Working(sites.slave, c.slaves[g], slaves, d);
    SlaveWorkIsStep(sites, c, g, slaves, d);
    NothingIsConfirmed(c, g, slaves, d);
  }

  lemma WithSlavesAgain(c: Servers, g: GroupId, x: R.Replicas, y: R.Replicas)
    ensures WithSlaves(WithSlaves(c, g, x), g, y) == WithSlaves(c, g, y)
  {
    assert c.slaves[g := x][g := y] == c.slaves[g := y];
  }

  lemma SoloStepOnSlaves(sites: Sites, c: Servers, g: GroupId, p: nat, e: Entry, x: R.Replicas, y: R.Replicas)
    requires SlaveMay(c, g, p, e) && x.logs == c.slaves[g].logs && SoloMoves(sites.slave, p, e)(x, y)
    ensures y.logs == c.slaves[g].logs && SlaveStep(sites, WithSlaves(c, g, x), WithSlaves(c, g, y))
  {
    WithSlavesAgain(c, g, x, y);
    if Idles(sites.slave, x, y) {
      SlaveIdles(sites, WithSlaves(c, g, x), g, y);
    } else if DropsOne(sites.slave, x, y) {
      assert SlaveLoses(sites, WithSlaves(c, g, x), WithSlaves(c, g, y), g);
    } else {
      SlaveProposing(sites, WithSlaves(c, g, x), g, p, e, y);
    }
  }

  lemma SoloOnSlaves(sites: Sites, c: Servers, g: GroupId, p: nat, e: Entry, m: R.Replicas)
    requires SlaveMay(c, g, p, e) && Leads(SoloMoves(sites.slave, p, e), c.slaves[g], m)
    ensures Leads(Steps(sites), c, WithSlaves(c, g, m))
  {
    var inv := (x: R.Replicas) => x.logs == c.slaves[g].logs && Leads(Steps(sites), c, WithSlaves(c, g, x));
    LeadsToItself(Steps(sites), c);
    assert WithSlaves(c, g, c.slaves[g]) == c;
    forall x, y | inv(x) && SoloMoves(sites.slave, p, e)(x, y)
      ensures inv(y)
    {
      SoloStepOnSlaves(sites, c, g, p, e, x, y);
      LeadsOn(Steps(sites), c, WithSlaves(c, g, x), WithSlaves(c, g, y));
    }
    LeadsKeeps(SoloMoves(sites.slave, p, e), inv, c.slaves[g], m);
  }

  lemma SlaveWorkGoes(sites: Sites, c: Servers, g: GroupId, m: R.Replicas, slaves: R.Replicas, p: nat)
    requires g in c.slaves && Leads(Steps(sites), c, WithSlaves(c, g, m)) && m.logs == c.slaves[g].logs
    requires p < |m.logs| && p < |slaves.logs| && R.Working(sites.slave, m, slaves, p)
    ensures Leads(Steps(sites), c, SlaveWorked(c, g, slaves, p))
  {
    var t := WithSlaves(c, g, m);
    SlaveWorkIsStep(sites, t, g, slaves, p);
    WithSlavesAgain(c, g, m, slaves);
    LeadsOn(Steps(sites), c, t, SlaveWorked(t, g, slaves, p));
  }

  // ----- Who can go on -----

  ghost predicate SlaveAble(sites: Sites, staff: Staff, c: Servers, g: GroupId) {
    g in staff.slaves && g in c.slaves && Able(sites.slave, c.slaves[g], staff.slaves[g])
  }

  /** A master can go on, and in each group a slave. */
  ghost predicate AllAble(sites: Sites, staff: Staff, c: Servers) {
    && staff.slaves.Keys == sites.groups == c.slaves.Keys && Able(sites.master, c.masters, staff.master)
    && forall g {:trigger SlaveAble(sites, staff, c, g)} :: g in sites.groups ==> SlaveAble(sites, staff, c, g)
  }

  lemma MasterStaysAble(sites: Sites, staff: Staff, c: Servers, c': Servers)
    requires AllAble(sites, staff, c) && c'.slaves == c.slaves
    requires Gained(sites.master, c.masters, c'.masters, staff.master)
    ensures AllAble(sites, staff, c')
  {
    AbleStays(sites.master, c.masters, c'.masters, staff.master);
    forall g | g in sites.groups
      ensures SlaveAble(sites, staff, c', g)
    {
      assert SlaveAble(sites, staff, c, g);
    }
  }

  lemma SlaveStaysAble(sites: Sites, staff: Staff, c: Servers, c': Servers, g: GroupId, slaves: R.Replicas)
    requires AllAble(sites, staff, c) && g in sites.groups
    requires c'.masters == c.masters && c'.slaves == c.slaves[g := slaves]
    requires Gained(sites.slave, c.slaves[g], slaves, staff.slaves[g])
    ensures AllAble(sites, staff, c')
  {
    assert SlaveAble(sites, staff, c, g);
    AbleStays(sites.slave, c.slaves[g], slaves, staff.slaves[g]);
    forall h | h in sites.groups
      ensures SlaveAble(sites, staff, c', h)
    {
      assert SlaveAble(sites, staff, c, h);
    }
  }

  // ----- The servers and the cluster that they simulate -----

  /** The servers are on the way from o, and are able to go on. */
  ghost predicate Going(sites: Sites, staff: Staff, o: Servers, c: Servers, h: H.Cluster) {
    && AllSound(sites) && Leads(Steps(sites), o, c) && Reached(sites, c)
    && Simulates(sites, c, h) && AllAble(sites, staff, c)
  }

  lemma GoesThrough(sites: Sites, o: Servers, c: Servers, c': Servers)
    requires Leads(Steps(sites), o, c) && Reached(sites, c) && Leads(Steps(sites), c, c')
    ensures Leads(Steps(sites), o, c') && Reached(sites, c')
  {
    LeadsThrough(Steps(sites), o, c, c');
    LeadsThrough(Steps(sites), InitServers(sites), c, c');
  }

  /** The cluster after the masters' log has become this one and master p has sent what it came to deliver. */
  ghost function MasterShows(h: H.Cluster, log: A.AgreedLog, p: nat): H.Cluster
    requires p < |h.master.seen| && p < |log.seen|
  {
    h.(master := log, selected := h.selected + H.SelectionsIn(log.agreed, h.master.seen[p], log.seen[p]))
  }

  ghost function SlaveShows(h: H.Cluster, g: GroupId, log: A.AgreedLog, p: nat): H.Cluster
    requires g in h.slaves && p < |h.slaves[g].seen| && p < |log.seen|
  {
    h.(slaves := h.slaves[g := log],
       changed := h.changed + H.ConfirmationsIn(g, log.agreed, h.slaves[g].seen[p], log.seen[p]))
  }

  lemma MasterWorkShows(sites: Sites, c: Servers, h: H.Cluster, p: nat, masters: R.Replicas, log: A.AgreedLog)
    requires AllSound(sites) && Simulates(sites, c, h) && p < sites.master.n && R.Simulates(sites.master, masters, log)
    requires H.Reached(sites.groups, MasterShows(h, log, p))
    ensures Simulates(sites, MasterWorked(c, masters, p), MasterShows(h, log, p))
  {
    R.LogsAreAgreed(sites.master, masters, log, p);
    SameSelections(Delivered(masters.logs[p]), log.agreed, FirstHole(c.masters.logs[p]), FirstHole(masters.logs[p]));
  }

  lemma MasterGoes(
    sites: Sites, staff: Staff, o: Servers, c: Servers, h: H.Cluster, m: R.Replicas, masters: R.Replicas,
    log: A.AgreedLog)
    returns (c': Servers)
    requires Going(sites, staff, o, c, h) && staff.master < |h.master.seen| && staff.master < |log.seen|
    requires Leads(Steps(sites), c, c.(masters := m)) && m.logs == c.masters.logs
    requires R.Working(sites.master, m, masters, staff.master) && Gained(sites.master, c.masters, masters, staff.master)
    requires R.Simulates(sites.master, masters, log) && H.Reached(sites.groups, MasterShows(h, log, staff.master))
    ensures Going(sites, staff, o, c', MasterShows(h, log, staff.master))
  {
    c' := MasterWorked(c, masters, staff.master);
    MasterWorkGoes(sites, c, m, masters, staff.master);
    GoesThrough(sites, o, c, c');
    MasterWorkShows(sites, c, h, staff.master, masters, log);
    MasterStaysAble(sites, staff, c, c');
  }

  lemma SlaveWorkShows(
    sites: Sites, c: Servers, h: H.Cluster, g: GroupId, p: nat, slaves: R.Replicas, log: A.AgreedLog)
    requires AllSound(sites) && Simulates(sites, c, h) && g in c.slaves && g in h.slaves
    requires p < |c.slaves[g].logs| && p < |slaves.logs| && p < |h.slaves[g].seen| && p < |log.seen|
    requires R.Simulates(sites.slave, slaves, log) && H.Reached(sites.groups, SlaveShows(h, g, log, p))
    ensures Simulates(sites, SlaveWorked(c, g, slaves, p), SlaveShows(h, g, log, p))
  {
    SlaveSimulates(sites, c, h, g);
    SlaveReplaced(sites, c.slaves, h.slaves, g, slaves, log);
    R.LogsAreAgreed(sites.slave, slaves, log, p);
    SameConfirmations(
      g, Delivered(slaves.logs[p]), log.agreed, FirstHole(c.slaves[g].logs[p]), FirstHole(slaves.logs[p]));
  }

  lemma SlaveGoes(
    sites: Sites, staff: Staff, o: Servers, c: Servers, h: H.Cluster, g: GroupId, p: nat, m: R.Replicas,
    slaves: R.Replicas, log: A.AgreedLog)
    returns (c': Servers)
    requires Going(sites, staff, o, c, h) && g in c.slaves && g in h.slaves && g in staff.slaves && p == staff.slaves[g]
    requires p < |h.slaves[g].seen| && p < |log.seen|
    requires Leads(Steps(sites), c, WithSlaves(c, g, m)) && m.logs == c.slaves[g].logs
    requires R.Working(sites.slave, m, slaves, p) && Gained(sites.slave, c.slaves[g], slaves, p)
    requires R.Simulates(sites.slave, slaves, log) && H.Reached(sites.groups, SlaveShows(h, g, log, p))
    ensures Going(sites, staff, o, c', SlaveShows(h, g, log, p))
  {
    c' := SlaveWorked(c, g, slaves, p);
    SlaveWorkGoes(sites, c, g, m, slaves, p);
    GoesThrough(sites, o, c, c');
    SlaveWorkShows(sites, c, h, g, p, slaves, log);
    SlaveStaysAble(sites, staff, c, c', g, slaves);
  }

  // ----- Catching up -----

  lemma MasterMayIff(sites: Sites, c: Servers, h: H.Cluster, p: nat, e: Entry)
    requires AllSound(sites) && Simulates(sites, c, h) && MasterProposes(sites.groups, h, p, e)
    ensures MasterMay(sites, c, p, e)
  {
    R.LogsAreAgreed(sites.master, c.masters, h.master, p);
    SameMasterState(sites, c, h, p);
  }

  lemma SlaveMayIff(sites: Sites, c: Servers, h: H.Cluster, g: GroupId, p: nat, e: Entry)
    requires AllSound(sites) && Simulates(sites, c, h) && SlaveProposes(h, g, p, e)
    ensures SlaveMay(c, g, p, e)
  {
    assert g in c.slaves;
    SlaveSimulates(sites, c, h, g);
    R.LogsAreAgreed(sites.slave, c.slaves[g], h.slaves[g], p);
    SameSlaveState(sites, c, h, g, p);
  }

  /** Where the master is in the agreed log. */
  lemma MasterIsAt(sites: Sites, staff: Staff, c: Servers, h: H.Cluster)
    requires AllSound(sites) && Simulates(sites, c, h) && AllAble(sites, staff, c)
    ensures A.WellFormed(h.master) && staff.master < sites.master.n == |h.master.seen| == |c.masters.logs|
    ensures h.master.seen[staff.master] == FirstHole(c.masters.logs[staff.master]) <= |h.master.agreed|
    ensures R.Simulates(sites.master, c.masters, h.master) && Able(sites.master, c.masters, staff.master)
  {
  }

  lemma SlaveIsAt(sites: Sites, staff: Staff, c: Servers, h: H.Cluster, g: GroupId)
    requires AllSound(sites) && Simulates(sites, c, h) && AllAble(sites, staff, c) && g in sites.groups
    ensures g in c.slaves && g in h.slaves && g in staff.slaves && A.WellFormed(h.slaves[g])
    ensures staff.slaves[g] < sites.slave.n == |h.slaves[g].seen| == |c.slaves[g].logs|
    ensures h.slaves[g].seen[staff.slaves[g]] == FirstHole(c.slaves[g].logs[staff.slaves[g]]) <= |h.slaves[g].agreed|
    ensures R.Simulates(sites.slave, c.slaves[g], h.slaves[g]) && Able(sites.slave, c.slaves[g], staff.slaves[g])
  {
    SlaveSimulates(sites, c, h, g);
    assert SlaveAble(sites, staff, c, g);
  }

  lemma MasterDeliversMore(sites: Sites, staff: Staff, o: Servers, c: Servers, h: H.Cluster)
    returns (c': Servers, h': H.Cluster)
    requires Going(sites, staff, o, c, h) && staff.master < |h.master.seen|
    requires h.master.seen[staff.master] < |h.master.agreed|
    ensures Going(sites, staff, o, c', h') && h'.slaves == h.slaves
    ensures staff.master < |h'.master.seen| && h'.master.agreed == h.master.agreed
    ensures h.master.seen[staff.master] < h'.master.seen[staff.master]
  {
    var p := staff.master;
    MasterIsAt(sites, staff, c, h);
    ReachedIsFilled(sites, c);
    var m, masters := CatchUpSome(sites.master, c.masters, h.master, p);
    MasterCanRepeat(sites.groups, h, p);
    MasterMayIff(sites, c, h, p, h.master.agreed[h.master.seen[p]]);
    SoloOnMasters(sites, c, p, h.master.agreed[h.master.seen[p]], m);
    var k := FirstHole(masters.logs[p]);
    var log := h.master.(seen := h.master.seen[p := k]);
    h' := MasterShows(h, log, p);
    assert A.Advances(h.master, log, p, k);
    assert H.MasterAdvances(h, h', p, k);
    ClusterGoesOn(sites.groups, h, h');
    c' := MasterGoes(sites, staff, o, c, h, m, masters, log);
  }

  lemma {:induction false} MasterGetsUp(sites: Sites, staff: Staff, o: Servers, c: Servers, h: H.Cluster)
    returns (c': Servers, h': H.Cluster)
    requires Going(sites, staff, o, c, h)
    ensures Going(sites, staff, o, c', h') && IsUp(h'.master, staff.master)
    decreases if staff.master < |h.master.seen| then |h.master.agreed| - h.master.seen[staff.master] else 0
  {
    MasterIsAt(sites, staff, c, h);
    if h.master.seen[staff.master] == |h.master.agreed| {
      c', h' := c, h;
    } else {
      var x, y := MasterDeliversMore(sites, staff, o, c, h);
      MasterIsAt(sites, staff, x, y);
      c', h' := MasterGetsUp(sites, staff, o, x, y);
    }
  }

  ghost function Lag(log: A.AgreedLog, p: nat): nat {
    if p < |log.seen| && log.seen[p] <= |log.agreed| then |log.agreed| - log.seen[p] else 0
  }

  // Only group g's log has changed, if anything.
  ghost predicate OnlySlave(h: H.Cluster, h': H.Cluster, g: GroupId) {
    && h'.master == h.master && h'.slaves.Keys == h.slaves.Keys
    && forall k :: k in h.slaves && k != g ==> h'.slaves[k] == h.slaves[k]
  }

  lemma SlaveShowsMore(groups: set<GroupId>, h: H.Cluster, g: GroupId, p: nat, k: nat, log: A.AgreedLog)
    requires H.Reached(groups, h) && g in h.slaves && A.Advances(h.slaves[g], log, p, k) && h.slaves[g].seen[p] < k
    ensures H.Reached(groups, SlaveShows(h, g, log, p)) && OnlySlave(h, SlaveShows(h, g, log, p), g)
    ensures Lag(log, p) < Lag(h.slaves[g], p)
  {
    assert H.SlaveAdvances(h, SlaveShows(h, g, log, p), g, p, k);
    ClusterGoesOn(groups, h, SlaveShows(h, g, log, p));
  }

  lemma SlaveCatchesUpSome(sites: Sites, staff: Staff, c: Servers, h: H.Cluster, g: GroupId, p: nat)
    returns (m: R.Replicas, slaves: R.Replicas)
    requires AllSound(sites) && Reached(sites, c) && Simulates(sites, c, h) && AllAble(sites, staff, c)
    requires g in sites.groups && g in staff.slaves && p == staff.slaves[g]
    requires g in h.slaves && g in c.slaves && p < |h.slaves[g].seen| && h.slaves[g].seen[p] < |h.slaves[g].agreed|
    ensures Leads(Steps(sites), c, WithSlaves(c, g, m)) && m.logs == c.slaves[g].logs
    ensures R.Working(sites.slave, m, slaves, p) && Gained(sites.slave, c.slaves[g], slaves, p)
    ensures h.slaves[g].seen[p] < FirstHole(slaves.logs[p]) <= |h.slaves[g].agreed|
    ensures R.Simulates(
      sites.slave, slaves, h.slaves[g].(seen := h.slaves[g].seen[p := FirstHole(slaves.logs[p])]))
  {
    var log := h.slaves[g];
    SlaveIsAt(sites, staff, c, h, g);
    ReachedIsFilled(sites, c);
    m, slaves := CatchUpSome(sites.slave, c.slaves[g], log, p);
    SlaveCanRepeat(sites.groups, h, g, p);
    SlaveMayIff(sites, c, h, g, p, log.agreed[log.seen[p]]);
    SoloOnSlaves(sites, c, g, p, log.agreed[log.seen[p]], m);
  }

  lemma SlaveDeliversMore(sites: Sites, staff: Staff, o: Servers, c: Servers, h: H.Cluster, g: GroupId, p: nat)
    returns (c': Servers, h': H.Cluster)
    requires Going(sites, staff, o, c, h) && g in sites.groups && g in staff.slaves && p == staff.slaves[g]
    requires g in h.slaves && p < |h.slaves[g].seen| && h.slaves[g].seen[p] < |h.slaves[g].agreed|
    ensures Going(sites, staff, o, c', h') && OnlySlave(h, h', g) && g in h'.slaves
    ensures Lag(h'.slaves[g], p) < Lag(h.slaves[g], p)
  {
    assert g in c.slaves;
    var m, slaves := SlaveCatchesUpSome(sites, staff, c, h, g, p);
    var k := FirstHole(slaves.logs[p]);
    var log := h.slaves[g].(seen := h.slaves[g].seen[p := k]);
    SlaveShowsMore(sites.groups, h, g, p, k, log);
    h' := SlaveShows(h, g, log, p);
    c' := SlaveGoes(sites, staff, o, c, h, g, p, m, slaves, log);
  }

  lemma {:induction false} SlaveGetsUp(
    sites: Sites, staff: Staff, o: Servers, c: Servers, h: H.Cluster, g: GroupId, p: nat, lag: nat)
    returns (c': Servers, h': H.Cluster)
    requires Going(sites, staff, o, c, h) && g in sites.groups && g in staff.slaves && p == staff.slaves[g]
    requires g in h.slaves && lag == Lag(h.slaves[g], p)
    ensures Going(sites, staff, o, c', h') && OnlySlave(h, h', g)
    ensures g in h'.slaves && IsUp(h'.slaves[g], p)
    decreases lag
  {
    SlaveIsAt(sites, staff, c, h, g);
    if lag == 0 {
      c', h' := c, h;
    } else {
      var x, y := SlaveDeliversMore(sites, staff, o, c, h, g, p);
      c', h' := SlaveGetsUp(sites, staff, o, x, y, g, p, Lag(y.slaves[g], p));
    }
  }

  lemma OnlySlaveGotUp(
    groups: set<GroupId>, staff: Staff, h: H.Cluster, h': H.Cluster, g: GroupId, rest: set<GroupId>)
    requires OnlySlave(h, h', g) && SlaveIsUp(staff, h', g)
    requires forall k :: k in groups - rest ==> SlaveIsUp(staff, h, k)
    ensures forall k :: k in groups - (rest - {g}) ==> SlaveIsUp(staff, h', k)
  {
    forall k | k in groups - (rest - {g})
      ensures SlaveIsUp(staff, h', k)
    {
      assert k != g ==> SlaveIsUp(staff, h, k);
    }
  }

  lemma {:induction false} SlavesGetUp(
    sites: Sites, staff: Staff, o: Servers, c: Servers, h: H.Cluster, rest: set<GroupId>)
    returns (c': Servers, h': H.Cluster)
    requires Going(sites, staff, o, c, h) && IsUp(h.master, staff.master) && rest <= sites.groups
    requires forall g :: g in sites.groups - rest ==> SlaveIsUp(staff, h, g)
    ensures Going(sites, staff, o, c', h') && AllUp(sites.groups, staff, h')
    decreases rest
  {
    if rest == {} {
      c', h' := c, h;
    } else {
      var g :| g in rest;
      SlaveIsAt(sites, staff, c, h, g);
      var x, y := SlaveGetsUp(sites, staff, o, c, h, g, staff.slaves[g], Lag(h.slaves[g], staff.slaves[g]));
      OnlySlaveGotUp(sites.groups, staff, h, y, g, rest);
      c', h' := SlavesGetUp(sites, staff, o, x, y, rest - {g});
    }
  }

  lemma AllGetUp(sites: Sites, staff: Staff, o: Servers, c: Servers, h: H.Cluster)
    returns (c': Servers, h': H.Cluster)
    requires Going(sites, staff, o, c, h)
    ensures Going(sites, staff, o, c', h') && AllUp(sites.groups, staff, h')
  {
    var x, y := MasterGetsUp(sites, staff, o, c, h);
    c', h' := SlavesGetUp(sites, staff, o, x, y, sites.groups);
  }

  // ----- What the servers tell each other -----

  function Told(c: Servers, h': H.Cluster): Servers {
    c.(selected := h'.selected, changed := h'.changed, answers := h'.answers)
  }

  lemma FindKeyTells(
    sites: Sites, c: Servers, h: H.Cluster, h': H.Cluster, p: nat, order: seq<GroupId>, key: Key)
    requires AllSound(sites) && Simulates(sites, c, h) && p < |c.masters.logs|
    requires H.FindKey(sites.groups, h, h', p, order, key, 0) && h'.master == h.master
    ensures Told(c, h') == c || MasterStep(sites, c, Told(c, h'))
  {
    SameMasterState(sites, c, h, p);
    var action := FindKeyRun(MasterOf(sites, c, p).value, order, key, 0);
    if !action.Assign? {
      assert FindKey(sites, c, Told(c, h'), p, order, key, 0, 0);
    }
  }

  lemma SlaveTells(sites: Sites, c: Servers, h: H.Cluster, h': H.Cluster, g: GroupId, p: nat, msg: SelectedMsg)
    requires AllSound(sites) && Simulates(sites, c, h) && g in c.slaves && p < |c.slaves[g].logs|
    requires H.HandleSelected(h, h', g, p, msg) && h'.slaves == h.slaves
    ensures Told(c, h') == c || SlaveStep(sites, c, Told(c, h'))
  {
    SameSlaveState(sites, c, h, g, p);
    var action := KeySpaceChangeRun(SlaveOf(c, g, p).value, msg.ranges, msg.generation);
    if !action.Adopt? {
      assert HandleSelected(sites, c, Told(c, h'), g, p, msg, 0);
    }
  }

  lemma ToldIsStep(sites: Sites, staff: Staff, c: Servers, h: H.Cluster, h': H.Cluster)
    requires AllSound(sites) && Simulates(sites, c, h) && AllAble(sites, staff, c) && Tells(sites.groups, staff, h, h')
    ensures Told(c, h') == c || Steps(sites)(c, Told(c, h'))
  {
    MasterIsAt(sites, staff, c, h);
    if order, key :| H.FindKey(sites.groups, h, h', staff.master, order, key, 0) {
      FindKeyTells(sites, c, h, h', staff.master, order, key);
    } else {
      var g, msg :| g in staff.slaves && H.HandleSelected(h, h', g, staff.slaves[g], msg);
      SlaveIsAt(sites, staff, c, h, g);
      SlaveTells(sites, c, h, h', g, staff.slaves[g], msg);
    }
  }

  lemma ToldIsAble(sites: Sites, staff: Staff, c: Servers, h': H.Cluster)
    requires AllAble(sites, staff, c)
    ensures AllAble(sites, staff, Told(c, h'))
  {
    forall g | g in sites.groups
      ensures SlaveAble(sites, staff, Told(c, h'), g)
    {
      assert SlaveAble(sites, staff, c, g);
    }
  }

  lemma TellingGoes(sites: Sites, staff: Staff, o: Servers, c: Servers, h: H.Cluster, h': H.Cluster)
    requires Going(sites, staff, o, c, h) && Tells(sites.groups, staff, h, h')
    ensures Going(sites, staff, o, Told(c, h'), h')
  {
    var c' := Told(c, h');
    ToldIsStep(sites, staff, c, h, h');
    LeadsToItself(Steps(sites), c);
    if c' != c {
      LeadsOn(Steps(sites), c, c, c');
    }
    GoesThrough(sites, o, c, c');
    TellingIsStep(sites.groups, staff, h, h');
    ClusterGoesOn(sites.groups, h, h');
    ToldIsAble(sites, staff, c, h');
  }

  // ----- What the servers write -----

  /** All that a slave group can be offered for an index is the adoption of one generation. */
  lemma AdoptionIsDetermined(groups: set<GroupId>, h: H.Cluster, g: GroupId, p: nat, e: Entry, w: Entry)
    requires H.Reached(groups, h) && g in groups && SlaveProposes(h, g, p, e) && IsUp(h.slaves[g], p)
    requires A.Offer(|h.slaves[g].agreed|, w) in h.slaves[g].offers
    ensures w == e
  {
    H.ReachedHolds(groups, h);
    var log, selections := h.slaves[g], H.Selections(g, h.master.agreed);
    assert H.InvSlave(log, selections);
    var n := |log.agreed|;
    var msg :| msg in h.selected && msg.group == g
               && KeySpaceChangeRun(H.SlaveAt(log.agreed, n).value, msg.ranges, msg.generation) == Adopt(e);
    H.SelectedIsRightful(log, selections, n, msg);
    assert H.Adopts(e, selections, n) && H.Adopts(w, selections, n);
  }

  lemma SlaveWritesProposal(sites: Sites, staff: Staff, c: Servers, h: H.Cluster, g: GroupId, p: nat, e: Entry)
    returns (m: R.Replicas, slaves: R.Replicas)
    requires AllSound(sites) && Simulates(sites, c, h) && AllAble(sites, staff, c)
    requires g in sites.groups && g in staff.slaves && p == staff.slaves[g]
    requires g in h.slaves && g in c.slaves && IsUp(h.slaves[g], p) && SlaveProposes(h, g, p, e)
    ensures Leads(SoloMoves(sites.slave, p, e), c.slaves[g], m) && m.logs == c.slaves[g].logs
    ensures R.Working(sites.slave, m, slaves, p) && Gained(sites.slave, c.slaves[g], slaves, p)
    ensures R.Simulates(sites.slave, slaves, A.AfterRound(h.slaves[g], e, e, p, |h.slaves[g].agreed| + 1))
  {
    SlaveIsAt(sites, staff, c, h, g);
    var w;
    m, slaves, w := WriteSome(sites.slave, c.slaves[g], h.slaves[g], p, e);
    if w != e {
      AdoptionIsDetermined(sites.groups, h, g, p, e, w);
    }
  }

  lemma SlaveWroteIsReached(groups: set<GroupId>, h: H.Cluster, g: GroupId, p: nat, e: Entry)
    requires H.Reached(groups, h) && SlaveProposes(h, g, p, e) && IsUp(h.slaves[g], p)
    ensures H.Reached(groups, SlaveWrote(h, g, p, e))
    ensures SlaveWrote(h, g, p, e)
            == SlaveShows(h, g, A.AfterRound(h.slaves[g], e, e, p, |h.slaves[g].agreed| + 1), p)
  {
    SlaveWriteIsRun(groups, h, g, p, e);
    ReachedOn(groups, h, SlaveWrote(h, g, p, e));
  }

  lemma SlaveWriteGoes(sites: Sites, staff: Staff, o: Servers, c: Servers, h: H.Cluster, g: GroupId, e: Entry)
    returns (c': Servers)
    requires Going(sites, staff, o, c, h) && g in sites.groups && g in staff.slaves && SlaveIsUp(staff, h, g)
    requires SlaveProposes(h, g, staff.slaves[g], e)
    ensures Going(sites, staff, o, c', SlaveWrote(h, g, staff.slaves[g], e))
  {
    var p := staff.slaves[g];
    assert g in c.slaves;
    var m, slaves := SlaveWritesProposal(sites, staff, c, h, g, p, e);
    SlaveMayIff(sites, c, h, g, p, e);
    SoloOnSlaves(sites, c, g, p, e, m);
    SlaveWroteIsReached(sites.groups, h, g, p, e);
    c' := SlaveGoes(
      sites, staff, o, c, h, g, p, m, slaves, A.AfterRound(h.slaves[g], e, e, p, |h.slaves[g].agreed| + 1));
  }

  lemma MoveGoes(sites: Sites, staff: Staff, o: Servers, c: Servers, h: H.Cluster, h': H.Cluster)
    returns (c': Servers)
    requires Going(sites, staff, o, c, h) && Moves(sites.groups, staff)(h, h')
    ensures Going(sites, staff, o, c', h')
  {
    if Tells(sites.groups, staff, h, h') {
      c' := Told(c, h');
      TellingGoes(sites, staff, o, c, h, h');
    } else {
      var g, e :| SlaveWrites(staff, h, h', g, e);
      c' := SlaveWriteGoes(sites, staff, o, c, h, g, e);
    }
  }

  /** What happens in the cluster while the masters' log stays as it is, the servers can do. */
  lemma MovesGo(sites: Sites, staff: Staff, o: Servers, c: Servers, h: H.Cluster, h': H.Cluster)
    returns (c': Servers)
    requires Going(sites, staff, o, c, h) && Leads(Moves(sites.groups, staff), h, h')
    ensures Going(sites, staff, o, c', h')
  {
    var inv := (x: H.Cluster) => exists y :: Going(sites, staff, o, y, x);
    forall x, x' | inv(x) && Moves(sites.groups, staff)(x, x')
      ensures inv(x')
    {
      var y :| Going(sites, staff, o, y, x);
      var y' := MoveGoes(sites, staff, o, y, x, x');
    }
    LeadsKeeps(Moves(sites.groups, staff), inv, h, h');
    c' :| Going(sites, staff, o, c', h');
  }

  lemma MasterWritesSome(sites: Sites, staff: Staff, c: Servers, h: H.Cluster, p: nat, e: Entry)
    returns (m: R.Replicas, masters: R.Replicas, w: Entry)
    requires AllSound(sites) && Simulates(sites, c, h) && AllAble(sites, staff, c) && p == staff.master
    requires IsUp(h.master, p) && MasterProposes(sites.groups, h, p, e)
    ensures w == e || A.Offer(|h.master.agreed|, w) in h.master.offers
    ensures Leads(Steps(sites), c, c.(masters := m)) && m.logs == c.masters.logs
    ensures R.Working(sites.master, m, masters, p) && Gained(sites.master, c.masters, masters, p)
    ensures R.Simulates(sites.master, masters, A.AfterRound(h.master, e, w, p, |h.master.agreed| + 1))
  {
    MasterIsAt(sites, staff, c, h);
    m, masters, w := WriteSome(sites.master, c.masters, h.master, p, e);
    MasterMayIff(sites, c, h, p, e);
    SoloOnMasters(sites, c, p, e, m);
  }

  lemma MasterWroteIsReached(groups: set<GroupId>, h: H.Cluster, p: nat, e: Entry, w: Entry)
    requires H.Reached(groups, h) && MasterProposes(groups, h, p, e) && IsUp(h.master, p)
    requires w == e || A.Offer(|h.master.agreed|, w) in h.master.offers
    ensures H.Reached(groups, MasterWrote(h, p, e, w))
    ensures MasterWrote(h, p, e, w) == MasterShows(h, A.AfterRound(h.master, e, w, p, |h.master.agreed| + 1), p)
  {
    MasterWriteIsRun(groups, h, p, e, w);
    ReachedOn(groups, h, MasterWrote(h, p, e, w));
  }

  /** The masters write what is proposed, or what was on offer for the index before. */
  lemma MasterWriteGoes(sites: Sites, staff: Staff, o: Servers, c: Servers, h: H.Cluster, e: Entry)
    returns (c': Servers, w: Entry)
    requires Going(sites, staff, o, c, h) && IsUp(h.master, staff.master)
    requires MasterProposes(sites.groups, h, staff.master, e)
    ensures w == e || A.Offer(|h.master.agreed|, w) in h.master.offers
    ensures Going(sites, staff, o, c', MasterWrote(h, staff.master, e, w))
  {
    var m, masters;
    m, masters, w := MasterWritesSome(sites, staff, c, h, staff.master, e);
    MasterWroteIsReached(sites.groups, h, staff.master, e, w);
    var log := A.AfterRound(h.master, e, w, staff.master, |h.master.agreed| + 1);
    c' := MasterGoes(sites, staff, o, c, h, m, masters, log);
  }

  // ----- Every key can be answered -----

  // How often the masters may yet have to write: at first it need not be what is proposed.
  ghost function Detour(h: H.Cluster): nat {
    if A.IsFresh(h.master) then 0 else 1
  }

  lemma {:induction false} UpServersCanAnswer(
    sites: Sites, staff: Staff, o: Servers, c: Servers, h: H.Cluster, state: MasterState, key: Key)
    returns (c': Servers, g: GroupId)
    requires Going(sites, staff, o, c, h) && AllUp(sites.groups, staff, h) && Sees(sites.groups, h, state)
    requires sites.groups != {}
    ensures Leads(Steps(sites), o, c') && g in sites.groups && H.Answered(key, g) in c'.answers
    decreases Detour(h), ToGo(state, key)
  {
    var m, e := AnswerOrProposal(sites.groups, staff, h, state, key);
    var x := MovesGo(sites, staff, o, c, h, m);
    if e.None? {
      c' := x;
      g :| g in sites.groups && H.Answered(key, g) in m.answers;
    } else {
      var y, w := MasterWriteGoes(sites, staff, o, x, m, e.value);
      var m' := MasterWrote(m, staff.master, e.value, w);
      WriteKeepsUp(sites.groups, staff, m, e.value, w);
      MasterIsAt(sites, staff, x, m);
      A.RoundIsFresh(m.master, e.value, w, staff.master, |m.master.agreed| + 1);
      var state' := SomethingIsSeen(sites.groups, m');
      if w == e.value {
        SeesWritten(sites.groups, m, state, staff.master, w, w);
      }
      c', g := UpServersCanAnswer(sites, staff, o, y, m', state', key);
    }
  }

  /**
   From every state that the servers can reach, every key can come to be answered, whatever messages were
   lost and however far the servers lag, if a master, and in each group a slave, can finish a round for
   every index that it lacks and that nobody has delivered. No other server need propose anything.
  */
  lemma EveryKeyCanBeAnswered(sites: Sites, staff: Staff, c: Servers, key: Key) returns (c': Servers, g: GroupId)
    requires AllSound(sites) && Reached(sites, c) && AllAble(sites, staff, c) && sites.groups != {}
    ensures Leads(Steps(sites), c, c') && g in sites.groups && H.Answered(key, g) in c'.answers
  {
    var h := ReachedSimulates(sites, c);
    LeadsToItself(Steps(sites), c);
    var x, y := AllGetUp(sites, staff, c, c, h);
    var state := SomethingIsSeen(sites.groups, y);
    c', g := UpServersCanAnswer(sites, staff, c, x, y, state, key);
  }

  /** Nobody, in any group, has promised the last number in any instance. */
  ghost predicate NobodyAtLast(sites: Sites, c: Servers) {
    && LastUnused(sites.master, c.masters)
    && forall g :: g in c.slaves ==> LastUnused(sites.slave, c.slaves[g])
  }

  lemma EveryoneIsAble(sites: Sites, staff: Staff, c: Servers)
    requires AllSound(sites) && Reached(sites, c) && NobodyAtLast(sites, c)
    requires sites.master.threshold <= sites.master.n && sites.master.numbers.DrawnNumber?
    requires sites.slave.threshold <= sites.slave.n && sites.slave.numbers.DrawnNumber?
    requires staff.master < sites.master.n && staff.slaves.Keys == sites.groups
    requires forall g :: g in staff.slaves ==> staff.slaves[g] < sites.slave.n
    ensures AllAble(sites, staff, c)
  {
    var h := ReachedSimulates(sites, c);
    UnusedIsAble(sites.master, c.masters, staff.master);
    forall g | g in sites.groups
      ensures SlaveAble(sites, staff, c, g)
    {
      SlaveSimulates(sites, c, h, g);
      UnusedIsAble(sites.slave, c.slaves[g], staff.slaves[g]);
    }
  }

  /** With the numbers that the program draws, that is so as long as nobody has promised the last of them. */
  lemma BeforeLastNumberEveryKeyCanBeAnswered(sites: Sites, c: Servers, key: Key) returns (c': Servers, g: GroupId)
    requires AllSound(sites) && Reached(sites, c) && NobodyAtLast(sites, c) && sites.groups != {}
    requires sites.master.threshold <= sites.master.n && sites.master.numbers.DrawnNumber?
    requires sites.slave.threshold <= sites.slave.n && sites.slave.numbers.DrawnNumber?
    ensures Leads(Steps(sites), c, c') && g in sites.groups && H.Answered(key, g) in c'.answers
  {
    var staff := Staff(0, map g | g in sites.groups :: 0);
    EveryoneIsAble(sites, staff, c);
    c', g := EveryKeyCanBeAnswered(sites, staff, c, key);
  }
}
