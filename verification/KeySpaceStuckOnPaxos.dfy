/**
 Servers that can never answer again: the masters' first instance gets stuck, with the numbers that the
 program draws, before anything was assigned.
*/
module KeySpaceStuckOnPaxos {
  import opened Wrappers
  import opened Paths
  import opened Entries
  import opened KeySpaceRanges
  import opened KeySpaceManagers
  import P = PaxosProtocol
  import opened PaxosStuck
  import opened PaxosLogs
  import opened LogSyncer
  import opened ReplicaRuns
  import opened HandshakeOnPaxos
  import opened KeySpaceProgress
  import opened KeySpaceProgressOnPaxos
  import R = ReplicatedLog
  import H = Handshake

  // ----- Stuck replicas -----

  /** The first instance is stuck, and its index is in no log and in no sync response. */
  ghost predicate FirstStuck(g: P.Group, r: R.Replicas) {
    && Stuck(g, R.InstanceAt(g, r, 0))
    && (forall p :: 0 <= p < |r.logs| ==> 0 !in r.logs[p])
    && (forall reply, x :: reply in r.replies && x in reply ==> x.index != 0)
  }

  lemma FirstIsHole(log: Log)
    requires 0 !in log
    ensures FirstHole(log) == 0 && Delivered(log) == []
  {
    FirstHoleIs(log, 0);
  }

  lemma ProposingStaysStuck(g: P.Group, r: R.Replicas, r': R.Replicas, p: nat, number: nat, e: Entry)
    requires g.numbers.DrawnNumber? && FirstStuck(g, r) && R.Proposing(g, r, r', p, number, e)
    ensures FirstStuck(g, r')
  {
    FirstIsHole(r.logs[p]);
    StuckProposes(g, R.InstanceAt(g, r, 0), p, number, e);
  }

  lemma DeliveringStaysStuck(g: P.Group, r: R.Replicas, r': R.Replicas, i: nat, env: P.Envelope)
    requires FirstStuck(g, r) && R.Delivering(g, r, r', i, env)
    ensures FirstStuck(g, r')
  {
    if i == 0 {
      var s := R.InstanceAt(g, r, 0);
      StuckDelivers(g, s, env);
      assert P.AfterDeliver(g, s, env).outputs == {};
    }
  }

  lemma SyncingStaysStuck(g: P.Group, r: R.Replicas, r': R.Replicas, p: nat)
    requires FirstStuck(g, r)
    requires (exists request :: R.Replying(r, r', p, request)) || (exists reply :: R.Merging(r, r', p, reply))
    ensures FirstStuck(g, r')
  {
    assert R.InstanceAt(g, r', 0) == R.InstanceAt(g, r, 0);
    if request :| R.Replying(r, r', p, request) {
      ResponseIsSound(r.logs[p], request);
    } else {
      var reply :| R.Merging(r, r', p, reply);
      MergeKeepsAndAdds(r.logs[p], reply);
    }
  }

  lemma WorkingStaysStuck(g: P.Group, r: R.Replicas, r': R.Replicas, p: nat)
    requires FirstStuck(g, r) && R.Working(g, r, r', p)
    ensures FirstStuck(g, r')
  {
    if i, env :| R.Delivering(g, r, r', i, env) && env.dst == p {
      DeliveringStaysStuck(g, r, r', i, env);
    } else {
      SyncingStaysStuck(g, r, r', p);
    }
  }

  lemma LosingStaysStuck(g: P.Group, r: R.Replicas, r': R.Replicas, i: nat, env: P.Envelope)
    requires FirstStuck(g, r) && R.Losing(g, r, r', i, env)
    ensures FirstStuck(g, r')
  {
    if i == 0 {
      StuckLoses(g, R.InstanceAt(g, r, 0), env);
    }
  }

  // ----- Stuck masters -----

  ghost predicate MastersStuck(sites: Sites, c: Servers) {
    FirstStuck(sites.master, c.masters) && c.answers == {}
  }

  lemma MasterIsNew(sites: Sites, c: Servers, p: nat)
    requires FirstStuck(sites.master, c.masters) && p < |c.masters.logs|
    ensures MasterOf(sites, c, p) == Some(H.InitMaster(sites.groups))
  {
    FirstIsHole(c.masters.logs[p]);
  }

  lemma FindKeyStaysStuck(
    sites: Sites, c: Servers, c': Servers, p: nat, order: seq<GroupId>, key: Key, retries: nat, number: nat)
    requires sites.master.numbers.DrawnNumber? && MastersStuck(sites, c)
    requires FindKey(sites, c, c', p, order, key, retries, number)
    ensures MastersStuck(sites, c')
  {
    MasterIsNew(sites, c, p);
    var state := H.InitMaster(sites.groups);
    SearchFinds(state, order, key);
    var action := FindKeyRun(state, order, key, retries);
    if action.Assign? {
      ProposingStaysStuck(sites.master, c.masters, c'.masters, p, number, action.entry);
    }
  }

  lemma MasterStepStaysStuck(sites: Sites, c: Servers, c': Servers)
    requires sites.master.numbers.DrawnNumber? && MastersStuck(sites, c) && MasterStep(sites, c, c')
    ensures MastersStuck(sites, c')
  {
    if p, order, key, retries, number :| FindKey(sites, c, c', p, order, key, retries, number) {
      FindKeyStaysStuck(sites, c, c', p, order, key, retries, number);
    } else if p, msg, number :| HandleChanged(sites, c, c', p, msg, number) {
      MasterIsNew(sites, c, p);
    } else if p :| MasterWorks(sites, c, c', p) {
      WorkingStaysStuck(sites.master, c.masters, c'.masters, p);
    } else {
      var i, env :| R.Losing(sites.master, c.masters, c'.masters, i, env);
      LosingStaysStuck(sites.master, c.masters, c'.masters, i, env);
    }
  }

  lemma StepStaysStuck(sites: Sites, c: Servers, c': Servers)
    requires sites.master.numbers.DrawnNumber? && MastersStuck(sites, c) && Steps(sites)(c, c')
    ensures MastersStuck(sites, c')
  {
    if MasterStep(sites, c, c') {
      MasterStepStaysStuck(sites, c, c');
    }
  }

  // ----- The run -----

  /** Master 0 may assign any key to any group to begin with. */
  lemma FirstAssignment(sites: Sites, c: Servers, g: GroupId, key: Key)
    requires c == InitServers(sites) && 0 < sites.master.n && g in sites.groups
    ensures MasterMay(sites, c, 0, Selected(g, [WholeTable(key)], 1))
  {
    FirstIsHole(c.masters.logs[0]);
    var state := H.InitMaster(sites.groups);
    assert MasterOf(sites, c, 0) == Some(state);
    var order := AssignsAgain(state, g, key);
    assert state[g].ranges + [WholeTable(key)] == [WholeTable(key)];
    assert Assigns(state, order, key, Selected(g, [WholeTable(key)], 1));
  }

  /**
   With the numbers that the program draws, the masters can come to a state from which no client is ever
   answered, whatever key it asks for and whatever else happens.
  */
  lemma MastersCanGetStuck(sites: Sites) returns (c: Servers)
    requires 0 < sites.master.n && sites.master.numbers.DrawnNumber? && sites.groups != {}
    ensures Reached(sites, c) && forall c' :: Leads(Steps(sites), c, c') ==> c'.answers == {}
  {
    var o := InitServers(sites);
    var g :| g in sites.groups;
    var key := Key("", "", "");
    var e := Selected(g, [WholeTable(key)], 1);
    FirstAssignment(sites, o, g, key);
    var s := InstanceCanGetStuck(sites.master, e);
    FirstIsHole(map[]);
    SoloMovesReplicas(sites.master, o.masters, 0, 0, e, s);
    var masters := Placed(sites.master, o.masters, 0, s);
    SoloOnMasters(sites, o, 0, e, masters);
    SoloKeepsLogs(sites.master, 0, e, o.masters, masters);
    c := o.(masters := masters);
    forall x, y | MastersStuck(sites, x) && Steps(sites)(x, y)
      ensures MastersStuck(sites, y)
    {
      StepStaysStuck(sites, x, y);
    }
    forall c' | Leads(Steps(sites), c, c')
      ensures c'.answers == {}
    {
      LeadsKeeps(Steps(sites), (x: Servers) => MastersStuck(sites, x), c, c');
    }
  }
}
