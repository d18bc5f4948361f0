/**
 A group of replicas: at every replica a log, for every index a Paxos instance, and log syncing
 between the replicas. The whole refines the agreed log of AgreedLog.dfy.
*/
module ReplicatedLog {
  import opened Wrappers
  import opened Entries
  import opened Paths
  import opened PaxosNode
  import opened PaxosProtocol
  import opened PaxosInvariant
  import opened PaxosAgreement
  import opened PaxosLogs
  import opened LogSyncer
  import A = AgreedLogs

  // `replies` are the sync responses ever sent; any of them can arrive anywhere, any number of times.
  datatype Replicas = Replicas(instances: map<nat, System>, logs: seq<Log>, replies: set<seq<IndexedEntry>>)

  /** Instances are made on demand. */
  function InstanceAt(g: Group, r: Replicas, index: nat): System {
    if index in r.instances then r.instances[index] else Init(g)
  }

  function InitReplicas(g: Group): Replicas {
    Replicas(map[], seq(g.n, _ => map[]), {})
  }

  // ----- Steps -----

  /** Replica p proposes e, for the first index it has not filled, under some number. */
  ghost predicate Proposing(g: Group, r: Replicas, r': Replicas, p: nat, number: nat, e: Entry) {
    && p < |r.logs|
    && var i := FirstHole(r.logs[p]);
      && p < |InstanceAt(g, r, i).nodes| && Allowed(g, InstanceAt(g, r, i).nodes[p], number)
      && r' == r.(instances := r.instances[i := AfterPropose(g, InstanceAt(g, r, i), p, number, e)])
  }

  /** A message of instance i arrives; if that makes the replica learn a value, it goes to its log. */
  ghost predicate Delivering(g: Group, r: Replicas, r': Replicas, i: nat, env: Envelope) {
    var s := InstanceAt(g, r, i);
    && env in s.net && env.dst < |s.nodes| && env.dst < |r.logs|
    && var eff := Received(g, s, env);
      r' == r.(instances := r.instances[i := AfterDeliver(g, s, env)],
               logs :=
                 if eff.wrote.Some? then r.logs[env.dst := Filled(r.logs[env.dst], i, eff.wrote.value)] else r.logs)
  }

  ghost predicate Losing(g: Group, r: Replicas, r': Replicas, i: nat, env: Envelope) {
    var s := InstanceAt(g, r, i);
    env in s.net && r' == r.(instances := r.instances[i := s.(net := s.net - multiset{env})])
  }

  /** Replica p answers a sync request, whoever sent it and whenever. */
  ghost predicate Replying(r: Replicas, r': Replicas, p: nat, request: SyncRequest) {
    p < |r.logs| && r' == r.(replies := r.replies + {Response(r.logs[p], request)})
  }

  ghost predicate Merging(r: Replicas, r': Replicas, p: nat, reply: seq<IndexedEntry>) {
    p < |r.logs| && reply in r.replies && r' == r.(logs := r.logs[p := Merged(r.logs[p], reply)])
  }

  /** Replica p receives a message, answers a sync request, or merges an answer. */
  ghost predicate Working(g: Group, r: Replicas, r': Replicas, p: nat) {
    || (exists i, env :: Delivering(g, r, r', i, env) && env.dst == p)
    || (exists request :: Replying(r, r', p, request))
    || (exists reply :: Merging(r, r', p, reply))
  }

  /** Whatever happens without anyone proposing. */
  ghost predicate Quietly(g: Group, r: Replicas, r': Replicas) {
    (exists p: nat :: Working(g, r, r', p)) || (exists i, env :: Losing(g, r, r', i, env))
  }

  ghost predicate NextReplicas(g: Group, guard: A.Guard, r: Replicas, r': Replicas) {
    || (exists p: nat, number, e :: Proposing(g, r, r', p, number, e) && guard(Delivered(r.logs[p]), e))
    || Quietly(g, r, r')
  }

  ghost function Steps(g: Group, guard: A.Guard): Relation<Replicas> {
    (r, r') => NextReplicas(g, guard, r, r')
  }

  ghost predicate IsReplicaRun(g: Group, guard: A.Guard, run: seq<Replicas>) {
    IsPath(Steps(g, guard), run) && run[0] == InitReplicas(g)
  }

  // ----- The refinement -----

  ghost predicate ChosenAt(g: Group, r: Replicas, i: nat, v: Entry) {
    Chosen(g, InstanceAt(g, r, i), v)
  }

  ghost predicate Sane(g: Group, r: Replicas, i: nat) {
    Reachable(g, InstanceAt(g, r, i))
  }

  lemma SaneHolds(g: Group, r: Replicas, i: nat)
    requires Sound(g) && InvReplicas(g, r)
    ensures Reachable(g, InstanceAt(g, r, i)) && Inv(g, InstanceAt(g, r, i))
  {
    assert Sane(g, r, i);
    ReachableHolds(g, InstanceAt(g, r, i));
  }

  /** Instance i takes a step. */
  lemma InstanceSteps(g: Group, r: Replicas, i: nat, s': System, step: Step)
    requires Sound(g) && InvReplicas(g, r) && StepOf(g, InstanceAt(g, r, i), s', step)
    ensures Reachable(g, s') && Inv(g, s')
  {
    SaneHolds(g, r, i);
    LeadsOn(PaxosProtocol.Steps(g), Init(g), InstanceAt(g, r, i), s');
    ReachableHolds(g, s');
  }

  ghost predicate InvReplicas(g: Group, r: Replicas) {
    && |r.logs| == g.n
    && (forall i: nat :: Sane(g, r, i))
    && (forall p, i :: 0 <= p < |r.logs| && i in r.logs[p] ==> ChosenAt(g, r, i, r.logs[p][i]))
    && (forall reply, x :: reply in r.replies && x in reply ==> ChosenAt(g, r, x.index, x.entry))
  }

  ghost predicate Refines(g: Group, r: Replicas, a: A.AgreedLog) {
    && A.WellFormed(a)
    && |a.seen| == g.n
    && (forall i :: 0 <= i < |a.agreed| ==> ChosenAt(g, r, i, a.agreed[i]))
    && (forall i: nat, v :: ChosenAt(g, r, i, v) ==> i < |a.agreed|)
    && (forall i: nat, v :: A.Offer(i, v) in a.offers <==> v in InstanceAt(g, r, i).proposed)
    && (forall p :: 0 <= p < |r.logs| && p < |a.seen| ==> a.seen[p] == FirstHole(r.logs[p]))
  }

  /** A chosen entry is the agreed one. */
  lemma ChosenIsAgreed(g: Group, r: Replicas, a: A.AgreedLog, i: nat, v: Entry)
    requires Sound(g) && InvReplicas(g, r) && Refines(g, r, a)
    requires ChosenAt(g, r, i, v)
    ensures i < |a.agreed| && a.agreed[i] == v
  {
    SaneHolds(g, r, i);
    ChosenIsUnique(g, InstanceAt(g, r, i), v, a.agreed[i]);
  }

  /** What a replica has delivered is a prefix of the agreed log, and all of its log agrees with it. */
  lemma LogsAreAgreed(g: Group, r: Replicas, a: A.AgreedLog, p: nat)
    requires Sound(g) && InvReplicas(g, r) && Refines(g, r, a) && p < g.n
    ensures forall i :: i in r.logs[p] ==> i < |a.agreed| && r.logs[p][i] == a.agreed[i]
    ensures Delivered(r.logs[p]) == A.Prefix(a, p)
  {
    forall i | i in r.logs[p]
      ensures i < |a.agreed| && r.logs[p][i] == a.agreed[i]
    {
      ChosenIsAgreed(g, r, a, i, r.logs[p][i]);
    }
  }

  /** Instance i, and perhaps one log, has moved on. */
  ghost predicate Replaced(g: Group, r: Replicas, r': Replicas, i: nat, s': System) {
    && r'.replies == r.replies
    && |r'.logs| == |r.logs|
    && r'.instances == r.instances[i := s']
    && InstanceAt(g, r, i).sent <= s'.sent
    && InstanceAt(g, r, i).proposed <= s'.proposed
  }

  lemma ChosenAtStays(g: Group, r: Replicas, r': Replicas, i: nat, s': System)
    requires Replaced(g, r, r', i, s')
    ensures forall j: nat, v :: ChosenAt(g, r, j, v) ==> ChosenAt(g, r', j, v)
    ensures forall j: nat, v :: j != i ==> (ChosenAt(g, r', j, v) <==> ChosenAt(g, r, j, v))
  {
    forall j: nat, v | ChosenAt(g, r, j, v)
      ensures ChosenAt(g, r', j, v)
    {
      if j == i {
        ChosenStays(g, InstanceAt(g, r, i), s', v);
      }
    }
  }

  lemma ReplacedKeeps(g: Group, r: Replicas, r': Replicas, i: nat, s': System)
    requires InvReplicas(g, r) && Replaced(g, r, r', i, s') && Reachable(g, s')
    requires forall p, j :: 0 <= p < |r'.logs| && j in r'.logs[p] ==>
      (j in r.logs[p] && r'.logs[p][j] == r.logs[p][j]) || (j == i && Chosen(g, s', r'.logs[p][j]))
    ensures InvReplicas(g, r')
  {
    ChosenAtStays(g, r, r', i, s');
    forall j: nat
      ensures Sane(g, r', j)
    {
      assert Sane(g, r, j);
    }
  }

  /** What the message sends only matters for being chosen if it is a Learn message. */
  lemma SilentKeepsChosen(g: Group, s: System, s': System, v: Entry)
    requires forall e :: e in s'.sent && e.msg.Learn? ==> e in s.sent
    requires s.sent <= s'.sent
    ensures Chosen(g, s', v) <==> Chosen(g, s, v)
  {
    if Chosen(g, s, v) {
      ChosenStays(g, s, s', v);
    }
    if Chosen(g, s', v) {
      var k :| ChosenIn(g, s', k, v);
      assert Acceptors(g, s', k, v) == Acceptors(g, s, k, v);
      assert ChosenIn(g, s, k, v);
    }
  }

  // ----- Each move is a step of the agreed log -----

  ghost predicate SameChosen(g: Group, r: Replicas, r': Replicas) {
    forall j: nat, v :: ChosenAt(g, r', j, v) <==> ChosenAt(g, r, j, v)
  }

  /** Replacing an instance that accepted nothing new. */
  lemma ReplacedSameChosen(g: Group, r: Replicas, r': Replicas, i: nat, s': System)
    requires Replaced(g, r, r', i, s')
    requires forall e :: e in s'.sent && e.msg.Learn? ==> e in InstanceAt(g, r, i).sent
    ensures SameChosen(g, r, r')
  {
    ChosenAtStays(g, r, r', i, s');
    forall v
      ensures ChosenAt(g, r', i, v) <==> ChosenAt(g, r, i, v)
    {
      SilentKeepsChosen(g, InstanceAt(g, r, i), s', v);
    }
  }

  lemma RefinesStays(g: Group, r: Replicas, r': Replicas, a: A.AgreedLog)
    requires Refines(g, r, a) && SameChosen(g, r, r') && r'.logs == r.logs
    requires forall i: nat :: InstanceAt(g, r', i).proposed == InstanceAt(g, r, i).proposed
    ensures Refines(g, r', a)
  {
  }

  lemma OfferRefines(g: Group, r: Replicas, r': Replicas, a: A.AgreedLog, p: nat, i: nat, e: Entry)
    returns (a': A.AgreedLog)
    requires Refines(g, r, a) && SameChosen(g, r, r') && r'.logs == r.logs && p < |r.logs| == g.n
    requires i == FirstHole(r.logs[p])
    requires forall j: nat :: InstanceAt(g, r', j).proposed
                              == InstanceAt(g, r, j).proposed + if j == i then {e} else {}
    ensures Refines(g, r', a') && A.Offers(a, a', p, e)
  {
    a' := a.(offers := a.offers + {A.Offer(i, e)});
  }

  lemma ProposeMovesInstance(g: Group, r: Replicas, r': Replicas, p: nat, number: nat, e: Entry) returns (s': System)
    requires Sound(g) && InvReplicas(g, r) && Proposing(g, r, r', p, number, e)
    ensures
      var i := FirstHole(r.logs[p]);
      var s := InstanceAt(g, r, i);
      && Replaced(g, r, r', i, s') && Reachable(g, s')
      && s'.proposed == s.proposed + {e}
      && forall f :: f in s'.sent && f.msg.Learn? ==> f in s.sent
  {
    var i := FirstHole(r.logs[p]);
    var s := InstanceAt(g, r, i);
    s' := AfterPropose(g, s, p, number, e);
    SaneHolds(g, r, i);
    ProposeMoves(g, s, p, number, e);
    InstanceSteps(g, r, i, s', Step.Propose(p, number, e));
  }

  lemma ProposalSettles(g: Group, r: Replicas, r': Replicas, a: A.AgreedLog, p: nat, s': System, e: Entry)
    returns (a': A.AgreedLog)
    requires InvReplicas(g, r) && Refines(g, r, a)
    requires p < g.n && r'.logs == r.logs && Replaced(g, r, r', FirstHole(r.logs[p]), s')
    requires Reachable(g, s')
    requires s'.proposed == InstanceAt(g, r, FirstHole(r.logs[p])).proposed + {e}
    requires forall f :: f in s'.sent && f.msg.Learn? ==> f in InstanceAt(g, r, FirstHole(r.logs[p])).sent
    ensures InvReplicas(g, r') && Refines(g, r', a') && A.Offers(a, a', p, e)
  {
    var i := FirstHole(r.logs[p]);
    ReplacedKeeps(g, r, r', i, s');
    ReplacedSameChosen(g, r, r', i, s');
    a' := OfferRefines(g, r, r', a, p, i, e);
  }

  lemma ProposeRefines(g: Group, r: Replicas, r': Replicas, a: A.AgreedLog, p: nat, number: nat, e: Entry)
    returns (a': A.AgreedLog)
    requires Sound(g) && InvReplicas(g, r) && Refines(g, r, a) && Proposing(g, r, r', p, number, e)
    ensures InvReplicas(g, r') && Refines(g, r', a') && A.Offers(a, a', p, e)
  {
    var s' := ProposeMovesInstance(g, r, r', p, number, e);
    a' := ProposalSettles(g, r, r', a, p, s', e);
  }

  lemma LoseRefines(g: Group, r: Replicas, r': Replicas, a: A.AgreedLog, i: nat, env: Envelope)
    requires Sound(g) && InvReplicas(g, r) && Refines(g, r, a)
    requires Losing(g, r, r', i, env)
    ensures InvReplicas(g, r') && Refines(g, r', a)
  {
    var s := InstanceAt(g, r, i);
    var s' := s.(net := s.net - multiset{env});
    InstanceSteps(g, r, i, s', Lose(env));
    ReplacedKeeps(g, r, r', i, s');
    ReplacedSameChosen(g, r, r', i, s');
    RefinesStays(g, r, r', a);
  }

  lemma ReplyRefines(g: Group, r: Replicas, r': Replicas, a: A.AgreedLog, p: nat, request: SyncRequest)
    requires InvReplicas(g, r) && Refines(g, r, a) && Replying(r, r', p, request)
    ensures InvReplicas(g, r') && Refines(g, r', a)
  {
    ResponseIsSound(r.logs[p], request);
    assert forall j: nat :: InstanceAt(g, r', j) == InstanceAt(g, r, j);
    forall j: nat ensures Sane(g, r', j) { assert Sane(g, r, j); }
    assert forall j: nat, v :: ChosenAt(g, r', j, v) <==> ChosenAt(g, r, j, v);
  }

  /** A log that grows by chosen entries advances along the agreed log. */
  lemma LogAdvances(g: Group, r: Replicas, r': Replicas, a: A.AgreedLog, p: nat, log': Log)
    returns (a': A.AgreedLog)
    requires Refines(g, r, a) && p < |r.logs| == g.n
    requires forall i :: i in r.logs[p] ==> i in log'
    requires forall i :: i in log' ==> ChosenAt(g, r, i, log'[i])
    requires r' == r.(logs := r.logs[p := log'])
    ensures Refines(g, r', a') && A.Advances(a, a', p, FirstHole(log'))
  {
    var k := FirstHole(log');
    assert a.seen[p] == FirstHole(r.logs[p]) <= k;
    if k > 0 {
      assert ChosenAt(g, r, k - 1, log'[k - 1]);
    }
    a' := a.(seen := a.seen[p := k]);
    assert A.Advances(a, a', p, k);
    assert forall j: nat :: InstanceAt(g, r', j) == InstanceAt(g, r, j);
    assert SameChosen(g, r, r');
  }

  lemma LogKeeps(g: Group, r: Replicas, r': Replicas, p: nat, log': Log)
    requires InvReplicas(g, r) && p < g.n
    requires forall i :: i in log' ==> ChosenAt(g, r, i, log'[i])
    requires r' == r.(logs := r.logs[p := log'])
    ensures InvReplicas(g, r')
  {
    assert forall j: nat :: InstanceAt(g, r', j) == InstanceAt(g, r, j);
    forall j: nat ensures Sane(g, r', j) { assert Sane(g, r, j); }
  }

  lemma MergeRefines(g: Group, r: Replicas, r': Replicas, a: A.AgreedLog, p: nat, reply: seq<IndexedEntry>)
    returns (a': A.AgreedLog)
    requires InvReplicas(g, r) && Refines(g, r, a)
    requires Merging(r, r', p, reply)
    ensures InvReplicas(g, r') && Refines(g, r', a') && A.Advances(a, a', p, FirstHole(r'.logs[p]))
  {
    MergeKeepsAndAdds(r.logs[p], reply);
    var log' := Merged(r.logs[p], reply);
    forall i | i in log'
      ensures ChosenAt(g, r, i, log'[i])
    {
      if i !in r.logs[p] {
        assert IndexedEntry(i, log'[i]) in reply;
      }
    }
    LogKeeps(g, r, r', p, log');
    a' := LogAdvances(g, r, r', a, p, log');
  }

  lemma AgreedIsChosen(g: Group, r: Replicas, a: A.AgreedLog, i: nat)
    requires Refines(g, r, a)
    ensures i < |a.agreed| ==> exists w :: ChosenAt(g, r, i, w)
  {
    if i < |a.agreed| {
      assert ChosenAt(g, r, i, a.agreed[i]);
    }
  }

  /** The first value chosen at an index extends the agreed log. */
  lemma DecisionRefines(g: Group, r: Replicas, m: Replicas, a: A.AgreedLog, i: nat, v: Entry)
    returns (a': A.AgreedLog)
    requires Refines(g, r, a) && m.logs == r.logs
    requires forall j: nat, w :: ChosenAt(g, m, j, w) <==> ChosenAt(g, r, j, w) || (j == i && w == v)
    requires forall j: nat :: InstanceAt(g, m, j).proposed == InstanceAt(g, r, j).proposed
    requires v in InstanceAt(g, r, i).proposed && forall w :: !ChosenAt(g, r, i, w)
    ensures Refines(g, m, a') && A.Grows(a, a')
  {
    assert A.Offer(i, v) in a.offers;
    AgreedIsChosen(g, r, a, i);
    a' := a.(agreed := a.agreed + [v]);
    assert A.Decides(a, a', v);
    forall j | 0 <= j < |a'.agreed|
      ensures ChosenAt(g, m, j, a'.agreed[j])
    {
    }
    assert A.WellFormed(a');
  }

  lemma InstanceRefines(g: Group, r: Replicas, m: Replicas, a: A.AgreedLog, i: nat, s': System)
    returns (a': A.AgreedLog)
    requires Sound(g) && Inv(g, s') && Refines(g, r, a)
    requires Replaced(g, r, m, i, s') && m.logs == r.logs && s'.proposed == InstanceAt(g, r, i).proposed
    ensures Refines(g, m, a') && A.Grows(a, a')
  {
    ChosenAtStays(g, r, m, i, s');
    if v :| Chosen(g, s', v) && !ChosenAt(g, r, i, v) {
      ChosenIsProposed(g, s', v);
      forall w | ChosenAt(g, m, i, w)
        ensures w == v
      {
        ChosenIsUnique(g, s', v, w);
      }
      assert ChosenAt(g, m, i, v);
      a' := DecisionRefines(g, r, m, a, i, v);
    } else {
      RefinesStays(g, r, m, a);
      a' := a;
    }
  }

  lemma WritingSendsNothing(g: Group, s: System, s': System, env: Envelope, eff: Effect)
    requires Delivers(g, s, s', env, eff) && eff.wrote.Some?
    ensures s'.sent == s.sent && Output(env.dst, eff.wrote.value) in s'.outputs
  {
  }

  /** A value that is written was chosen before the message that completed the count arrived. */
  lemma DeliverMovesInstance(g: Group, r: Replicas, r': Replicas, i: nat, env: Envelope)
    returns (m: Replicas, s': System, wrote: Option<Entry>)
    requires Sound(g) && InvReplicas(g, r) && Delivering(g, r, r', i, env)
    ensures Replaced(g, r, m, i, s') && m.logs == r.logs && Reachable(g, s') && Inv(g, s')
    ensures s'.proposed == InstanceAt(g, r, i).proposed
    ensures wrote.None? ==> r' == m
    ensures wrote.Some? ==>
      && r' == m.(logs := m.logs[env.dst := Filled(m.logs[env.dst], i, wrote.value)])
      && s'.sent == InstanceAt(g, r, i).sent && Chosen(g, s', wrote.value)
  {
    var s := InstanceAt(g, r, i);
    var eff := Received(g, s, env);
    s' := AfterDeliver(g, s, env);
    wrote := eff.wrote;
    SaneHolds(g, r, i);
    DeliverMoves(g, s, env);
    InstanceSteps(g, r, i, s', Deliver(env));
    m := r.(instances := r.instances[i := s']);
    if wrote.Some? {
      WritingSendsNothing(g, s, s', env, eff);
    }
  }

  lemma WriteRefines(g: Group, m: Replicas, r': Replicas, a: A.AgreedLog, i: nat, p: nat, v: Entry)
    returns (a': A.AgreedLog)
    requires InvReplicas(g, m) && Refines(g, m, a) && p < g.n && ChosenAt(g, m, i, v)
    requires r' == m.(logs := m.logs[p := Filled(m.logs[p], i, v)])
    ensures InvReplicas(g, r') && Refines(g, r', a') && A.Advances(a, a', p, FirstHole(r'.logs[p]))
  {
    var log' := Filled(m.logs[p], i, v);
    LogKeeps(g, m, r', p, log');
    a' := LogAdvances(g, m, r', a, p, log');
  }

  lemma DeliveryRefines(g: Group, r: Replicas, m: Replicas, r': Replicas, a: A.AgreedLog, i: nat, s': System,
                        p: nat, wrote: Option<Entry>)
    returns (a': A.AgreedLog)
    requires Sound(g) && Refines(g, r, a) && p < g.n && InvReplicas(g, m)
    requires Replaced(g, r, m, i, s') && m.logs == r.logs && Inv(g, s')
    requires s'.proposed == InstanceAt(g, r, i).proposed
    requires wrote.None? ==> r' == m
    requires wrote.Some? ==>
      && r' == m.(logs := m.logs[p := Filled(m.logs[p], i, wrote.value)])
      && s'.sent == InstanceAt(g, r, i).sent && Chosen(g, s', wrote.value)
    ensures InvReplicas(g, r') && Refines(g, r', a') && A.Grows(a, a')
  {
    if wrote.Some? {
      ReplacedSameChosen(g, r, m, i, s');
      RefinesStays(g, r, m, a);
      assert ChosenAt(g, m, i, wrote.value);
      a' := WriteRefines(g, m, r', a, i, p, wrote.value);
    } else {
      a' := InstanceRefines(g, r, m, a, i, s');
    }
  }

  lemma DeliverRefines(g: Group, r: Replicas, r': Replicas, a: A.AgreedLog, i: nat, env: Envelope)
    returns (a': A.AgreedLog)
    requires Sound(g) && InvReplicas(g, r) && Refines(g, r, a)
    requires Delivering(g, r, r', i, env)
    ensures InvReplicas(g, r') && Refines(g, r', a') && A.Grows(a, a')
  {
    var m, s', wrote := DeliverMovesInstance(g, r, r', i, env);
    ReplacedKeeps(g, r, m, i, s');
    a' := DeliveryRefines(g, r, m, r', a, i, s', env.dst, wrote);
  }

  // ----- All runs -----

  ghost predicate Simulates(g: Group, r: Replicas, a: A.AgreedLog) {
    InvReplicas(g, r) && Refines(g, r, a)
  }

  lemma InitSimulates(g: Group)
    requires g.threshold > 0 && Sound(g)
    ensures Simulates(g, InitReplicas(g), A.InitLog(g.n))
  {
    var r := InitReplicas(g);
    forall i: nat, v
      ensures !ChosenAt(g, r, i, v)
    {
      forall k
        ensures !ChosenIn(g, Init(g), k, v)
      {
        assert Acceptors(g, Init(g), k, v) == {};
      }
    }
    LeadsToItself(PaxosProtocol.Steps(g), Init(g));
    FirstHoleIs(map[], 0);
  }

  /** Proposing is offering, by the same replica and for the index it is at. */
  lemma ProposingSimulates(g: Group, r: Replicas, r': Replicas, a: A.AgreedLog, p: nat, number: nat, e: Entry)
    returns (a': A.AgreedLog)
    requires Sound(g) && Simulates(g, r, a) && Proposing(g, r, r', p, number, e)
    ensures Simulates(g, r', a') && A.Offers(a, a', p, e)
  {
    a' := ProposeRefines(g, r, r', a, p, number, e);
  }

  /** Anything else decides an entry, advances a replica, or does not show. */
  lemma QuietlySimulates(g: Group, r: Replicas, r': Replicas, a: A.AgreedLog) returns (a': A.AgreedLog)
    requires Sound(g) && Simulates(g, r, a) && Quietly(g, r, r')
    ensures Simulates(g, r', a') && A.Grows(a, a')
  {
    if i, env :| Losing(g, r, r', i, env) {
      LoseRefines(g, r, r', a, i, env);
      a' := a;
    } else {
      var p: nat :| Working(g, r, r', p);
      a' := WorkingSimulates(g, r, r', a, p);
    }
  }

  lemma WorkingSimulates(g: Group, r: Replicas, r': Replicas, a: A.AgreedLog, p: nat) returns (a': A.AgreedLog)
    requires Sound(g) && Simulates(g, r, a) && Working(g, r, r', p)
    ensures Simulates(g, r', a') && A.Grows(a, a')
  {
    if i, env :| Delivering(g, r, r', i, env) && env.dst == p {
      a' := DeliverRefines(g, r, r', a, i, env);
    } else if request :| Replying(r, r', p, request) {
      ReplyRefines(g, r, r', a, p, request);
      a' := a;
    } else {
      var reply :| Merging(r, r', p, reply);
      a' := MergeRefines(g, r, r', a, p, reply);
    }
  }

  lemma WorkingIsLocal(g: Group, r: Replicas, r': Replicas, p: nat, q: nat)
    requires Working(g, r, r', p) && q < |r.logs| && q != p
    ensures |r'.logs| == |r.logs| && r'.logs[q] == r.logs[q]
  {
  }

  /** What one replica's work shows: it advances to where its log now is, or it decides an entry. */
  lemma WorkingShows(g: Group, r: Replicas, r': Replicas, a: A.AgreedLog, p: nat) returns (a': A.AgreedLog)
    requires Sound(g) && Simulates(g, r, a) && Working(g, r, r', p)
    ensures Simulates(g, r', a') && p < g.n == |r.logs| == |r'.logs|
    ensures Delivered(r'.logs[p]) == A.Prefix(a', p)
    ensures
      var k := FirstHole(r'.logs[p]);
      A.Advances(a, a', p, k) || (k == FirstHole(r.logs[p]) && exists e :: A.Decides(a, a', e))
  {
    a' := WorkingSimulates(g, r, r', a, p);
    LogsAreAgreed(g, r', a', p);
    forall q | 0 <= q < g.n && q != p
      ensures a'.seen[q] == a.seen[q]
    {
      WorkingIsLocal(g, r, r', p, q);
    }
    if q, k :| A.Advances(a, a', q, k) {
      assert a'.seen == a.seen[p := FirstHole(r'.logs[p])];
    } else if a' == a {
      assert a.seen == a.seen[p := FirstHole(r'.logs[p])];
    }
  }

  lemma MoveSimulates(g: Group, guard: A.Guard, r: Replicas, r': Replicas, a: A.AgreedLog) returns (a': A.AgreedLog)
    requires Sound(g) && Simulates(g, r, a) && NextReplicas(g, guard, r, r')
    ensures Simulates(g, r', a') && A.Next(guard, a, a')
  {
    if p: nat, number, e :| Proposing(g, r, r', p, number, e) && guard(Delivered(r.logs[p]), e) {
      LogsAreAgreed(g, r, a, p);
      a' := ProposingSimulates(g, r, r', a, p, number, e);
    } else {
      a' := QuietlySimulates(g, r, r', a);
    }
  }

  ghost predicate AllSimulate(g: Group, run: seq<Replicas>, above: seq<A.AgreedLog>) {
    |above| == |run| && forall i :: 0 <= i < |run| ==> Simulates(g, run[i], above[i])
  }

  lemma AllSimulateNext(g: Group, run: seq<Replicas>, above: seq<A.AgreedLog>, a: A.AgreedLog)
    requires run != [] && AllSimulate(g, run[..|run| - 1], above) && Simulates(g, run[|run| - 1], a)
    ensures AllSimulate(g, run, above + [a])
  {
    var before := run[..|run| - 1];
    assert forall i :: 0 <= i < |before| ==> Simulates(g, before[i], above[i]);
  }

  ghost predicate IsRunAbove(n: nat, guard: A.Guard, above: seq<A.AgreedLog>) {
    IsPath(A.Steps(guard), above) && above[0] == A.InitLog(n)
  }

  /**
   Every run of the replicas is a run of the agreed log, step by step: there is a run of agreed
   logs of the same length, each simulated by the replicas at that point.
  */
  lemma {:induction false} RunRefines(g: Group, guard: A.Guard, run: seq<Replicas>) returns (above: seq<A.AgreedLog>)
    requires g.threshold > 0 && Sound(g) && IsReplicaRun(g, guard, run)
    ensures |above| == |run| && IsRunAbove(g.n, guard, above)
    ensures AllSimulate(g, run, above)
    decreases |run|
  {
    if |run| == 1 {
      InitSimulates(g);
      above := [A.InitLog(g.n)];
    } else {
      PathBefore(Steps(g, guard), run);
      var before := run[..|run| - 1];
      var rest := RunRefines(g, guard, before);
      assert Simulates(g, before[|run| - 2], rest[|run| - 2]);
      var a' := MoveSimulates(g, guard, before[|run| - 2], Last(run), Last(rest));
      PathGoesOn(A.Steps(guard), rest, a');
      AllSimulateNext(g, run, rest, a');
      above := rest + [a'];
    }
  }

  lemma AboveHolds(n: nat, guard: A.Guard, above: seq<A.AgreedLog>)
    requires IsRunAbove(n, guard, above)
    ensures A.WellFormed(Last(above)) && A.OffersGuarded(guard, Last(above))
  {
    var inv := (a: A.AgreedLog) => A.WellFormed(a) && A.OffersGuarded(guard, a);
    forall a, a' | inv(a) && A.Next(guard, a, a')
      ensures inv(a')
    {
      A.NextKeeps(guard, a, a');
    }
    PathKeeps(A.Steps(guard), inv, above);
  }

  /**
   Log compatibility, over runs that mix learning and syncing: any two logs agree wherever both
   are filled, and of the entries any two replicas have delivered, one is a prefix of the other.
  */
  lemma LogsAreCompatible(g: Group, guard: A.Guard, run: seq<Replicas>, p: nat, q: nat)
    requires g.threshold > 0 && Sound(g) && IsReplicaRun(g, guard, run) && p < g.n && q < g.n
    ensures
      var r := Last(run);
      && |r.logs| == g.n
      && (forall i :: i in r.logs[p] && i in r.logs[q] ==> r.logs[p][i] == r.logs[q][i])
      && (Delivered(r.logs[p]) <= Delivered(r.logs[q]) || Delivered(r.logs[q]) <= Delivered(r.logs[p]))
  {
    var above := RunRefines(g, guard, run);
    var r, a := Last(run), Last(above);
    assert Simulates(g, r, a);
    LogsAreAgreed(g, r, a, p);
    LogsAreAgreed(g, r, a, q);
  }

  /** A guard that every replica checks before proposing holds of every entry that any replica delivers. */
  lemma DeliveredEntriesAreGuarded(g: Group, guard: A.Guard, run: seq<Replicas>, p: nat)
    requires g.threshold > 0 && Sound(g) && IsReplicaRun(g, guard, run) && p < g.n
    ensures |Last(run).logs| == g.n
    ensures A.Guarded(guard, Delivered(Last(run).logs[p]))
  {
    var above := RunRefines(g, guard, run);
    var r, a := Last(run), Last(above);
    assert Simulates(g, r, a);
    AboveHolds(g.n, guard, above);
    A.AgreedEntriesAreGuarded(guard, a);
    LogsAreAgreed(g, r, a, p);
  }
}
