/**
 Building runs of a group of replicas: the entry for the next index can be taken through its Paxos
 instance, as long as that instance is open.
*/
module ReplicaRuns {
  import opened Wrappers
  import opened Paths
  import opened Entries
  import opened PaxosNode
  import opened PaxosProtocol
  import opened PaxosInvariant
  import opened PaxosAgreement
  import opened PaxosRuns
  import opened PaxosProgress
  import opened PaxosLogs
  import opened FiniteSets
  import R = ReplicatedLog
  import A = AgreedLogs

  // ----- Moves that show in no log -----

  /** Some replica receives a message, and no log changes. */
  ghost predicate Idles(g: Group, r: R.Replicas, r': R.Replicas) {
    r'.logs == r.logs && exists d: nat :: d < |r.logs| && R.Working(g, r, r', d)
  }

  /** A message of some instance is lost. */
  ghost predicate DropsOne(g: Group, r: R.Replicas, r': R.Replicas) {
    exists i, env :: R.Losing(g, r, r', i, env)
  }

  ghost predicate ProposesAt(g: Group, r: R.Replicas, r': R.Replicas, p: nat, e: Entry) {
    exists number :: R.Proposing(g, r, r', p, number, e)
  }

  ghost function SoloMoves(g: Group, p: nat, e: Entry): Relation<R.Replicas> {
    (r, r') => Idles(g, r, r') || DropsOne(g, r, r') || ProposesAt(g, r, r', p, e)
  }

  lemma SoloKeepsLogs(g: Group, p: nat, e: Entry, r: R.Replicas, r': R.Replicas)
    requires Leads(SoloMoves(g, p, e), r, r')
    ensures r'.logs == r.logs
  {
    LeadsKeeps(SoloMoves(g, p, e), (x: R.Replicas) => x.logs == r.logs, r, r');
  }

  // ----- From an instance to the replicas -----

  function WithInstance(r: R.Replicas, i: nat, s: System): R.Replicas {
    r.(instances := r.instances[i := s])
  }

  // The replicas with instance i in this state; r itself if that is the state it is in.
  function Placed(g: Group, r: R.Replicas, i: nat, s: System): R.Replicas {
    if s == R.InstanceAt(g, r, i) then r else WithInstance(r, i, s)
  }

  lemma SilentMoves(g: Group, r: R.Replicas, x: R.Replicas, i: nat, s: System, s': System)
    requires |r.logs| == g.n && R.InstanceAt(g, x, i) == s
    requires |s.nodes| == g.n && (x == r || x == WithInstance(r, i, s)) && Silently(g, s, s')
    ensures Idles(g, x, WithInstance(r, i, s'))
  {
    var y := WithInstance(r, i, s');
    var env :| env in s.net && env.dst < |s.nodes| && Received(g, s, env).wrote.None? && s' == AfterDeliver(g, s, env);
    assert R.Delivering(g, x, y, i, env);
    assert R.Working(g, x, y, env.dst);
  }

  lemma ProposalMoves(g: Group, r: R.Replicas, x: R.Replicas, i: nat, p: nat, e: Entry, s: System, s': System)
    requires |r.logs| == g.n && p < g.n && i == FirstHole(r.logs[p]) && R.InstanceAt(g, x, i) == s
    requires |s.nodes| == g.n && (x == r || x == WithInstance(r, i, s)) && ProposesDrawn(g, s, s', p, e)
    ensures ProposesAt(g, x, WithInstance(r, i, s'), p, e)
  {
    var number :| Drawn(s.nodes[p].latest, number) && s' == AfterPropose(g, s, p, number, e);
    assert R.Proposing(g, x, WithInstance(r, i, s'), p, number, e);
  }

  lemma DropMoves(g: Group, r: R.Replicas, x: R.Replicas, i: nat, s: System, s': System)
    requires R.InstanceAt(g, x, i) == s && (x == r || x == WithInstance(r, i, s)) && Drops(s, s')
    ensures DropsOne(g, x, WithInstance(r, i, s'))
  {
    var env :| env in s.net && s' == s.(net := s.net - multiset{env});
    assert R.Losing(g, x, WithInstance(r, i, s'), i, env);
  }

  lemma SoloStepMoves(g: Group, r: R.Replicas, x: R.Replicas, i: nat, p: nat, e: Entry, s: System, s': System)
    requires |r.logs| == g.n && p < g.n && i == FirstHole(r.logs[p]) && R.InstanceAt(g, x, i) == s
    requires |s.nodes| == g.n && (x == r || x == WithInstance(r, i, s))
    requires SoloSteps(g, p, e)(s, s')
    ensures SoloMoves(g, p, e)(x, WithInstance(r, i, s'))
  {
    if Silently(g, s, s') {
      SilentMoves(g, r, x, i, s, s');
    } else if Drops(s, s') {
      DropMoves(g, r, x, i, s, s');
    } else {
      ProposalMoves(g, r, x, i, p, e, s, s');
    }
  }

  lemma SoloKeepsNodes(g: Group, p: nat, e: Entry, s: System, s': System)
    requires SoloSteps(g, p, e)(s, s')
    ensures |s'.nodes| == |s.nodes|
  {
  }

  /** One more step of the instance is one more move of the replicas. */
  lemma SoloGoesOn(g: Group, r: R.Replicas, i: nat, p: nat, e: Entry, s: System, s': System)
    requires |r.logs| == g.n && p < g.n && i == FirstHole(r.logs[p]) && |s.nodes| == g.n
    requires Leads(SoloMoves(g, p, e), r, Placed(g, r, i, s)) && SoloSteps(g, p, e)(s, s')
    ensures Leads(SoloMoves(g, p, e), r, Placed(g, r, i, s'))
  {
    SoloStepMoves(g, r, Placed(g, r, i, s), i, p, e, s, s');
    LeadsOn(SoloMoves(g, p, e), r, Placed(g, r, i, s), WithInstance(r, i, s'));
    LeadsToItself(SoloMoves(g, p, e), r);
  }

  /** What one proposer does in an instance, the replicas do. */
  lemma SoloMovesReplicas(g: Group, r: R.Replicas, i: nat, p: nat, e: Entry, m: System)
    requires |r.logs| == g.n && p < g.n && i == FirstHole(r.logs[p]) && |R.InstanceAt(g, r, i).nodes| == g.n
    requires Leads(SoloSteps(g, p, e), R.InstanceAt(g, r, i), m)
    ensures Leads(SoloMoves(g, p, e), r, Placed(g, r, i, m)) && |m.nodes| == g.n
  {
    var inv := (x: System) => |x.nodes| == g.n && Leads(SoloMoves(g, p, e), r, Placed(g, r, i, x));
    LeadsToItself(SoloMoves(g, p, e), r);
    forall x, y | inv(x) && SoloSteps(g, p, e)(x, y)
      ensures inv(y)
    {
      SoloKeepsNodes(g, p, e, x, y);
      SoloGoesOn(g, r, i, p, e, x, y);
    }
    LeadsKeeps(SoloSteps(g, p, e), inv, R.InstanceAt(g, r, i), m);
  }

  // ----- A round at the end of the agreed log -----

  /** Instance i is one in which replica p can finish a round. */
  ghost predicate Opens(g: Group, r: R.Replicas, p: nat, i: nat) {
    Small(R.InstanceAt(g, r, i)) && CanFinish(g, R.InstanceAt(g, r, i), p)
  }

  lemma FreshIsOpen(g: Group, r: R.Replicas, a: A.AgreedLog, p: nat)
    requires Sound(g) && g.threshold <= g.n && R.Simulates(g, r, a) && A.IsFresh(a)
    requires p < g.n && FirstHole(r.logs[p]) == |a.agreed|
    ensures Opens(g, r, p, |a.agreed|)
  {
    var i := |a.agreed|;
    var s := R.InstanceAt(g, r, i);
    R.SaneHolds(g, r, i);
    forall v
      ensures v !in s.proposed
    {
      assert A.Offer(i, v) !in a.offers;
    }
    UnproposedIsInit(g, s);
    assert Room(s, LAST_NUMBER) == Below(g.n);
  }

  lemma LearnedIsChosen(g: Group, s: System, l: nat)
    requires Sound(g) && Reachable(g, s) && l < g.n
    ensures |s.nodes| == g.n && (s.nodes[l].learned ==> exists w :: Chosen(g, s, w))
  {
    ReachableHolds(g, s);
    ReachableListens(g, s);
    if s.nodes[l].learned {
      var w :| Output(l, w) in s.outputs;
      assert Output(l, w).value == w && Chosen(g, s, w);
    }
  }

  lemma NothingChosenAt(g: Group, r: R.Replicas, a: A.AgreedLog, i: nat)
    requires R.Simulates(g, r, a) && i >= |a.agreed|
    ensures forall w :: !Chosen(g, R.InstanceAt(g, r, i), w)
  {
    forall w
      ensures !Chosen(g, R.InstanceAt(g, r, i), w)
    {
      assert !R.ChosenAt(g, r, i, w);
    }
  }

  lemma NobodyHasLearned(g: Group, r: R.Replicas, a: A.AgreedLog, l: nat)
    requires Sound(g) && R.Simulates(g, r, a) && l < g.n
    ensures |R.InstanceAt(g, r, |a.agreed|).nodes| == g.n
    ensures !R.InstanceAt(g, r, |a.agreed|).nodes[l].learned && |a.agreed| !in r.logs[l]
  {
    assert R.Sane(g, r, |a.agreed|);
    LearnedIsChosen(g, R.InstanceAt(g, r, |a.agreed|), l);
    NothingChosenAt(g, r, a, |a.agreed|);
    NothingAbove(g, r, a, |a.agreed|, l);
  }

  lemma FirstHoleAfter(log: Log, i: nat, w: Entry)
    requires i !in log && i + 1 !in log
    ensures FirstHole(Filled(log, i, w)) == if FirstHole(log) == i then i + 1 else FirstHole(log)
  {
    FirstHoleIs(Filled(log, i, w), if FirstHole(log) == i then i + 1 else FirstHole(log));
  }

  function Written(r: R.Replicas, i: nat, s: System, l: nat, w: Entry): R.Replicas
    requires l < |r.logs|
  {
    WithInstance(r, i, s).(logs := r.logs[l := Filled(r.logs[l], i, w)])
  }

  /** Instance i is replaced by one in which w has been chosen, and replica l has written it. */
  lemma RoundIsSimulated(g: Group, r: R.Replicas, a: A.AgreedLog, s': System, e: Entry, w: Entry, l: nat)
    requires Sound(g) && R.Simulates(g, r, a) && l < g.n && l < |r.logs|
    requires
      var s := R.InstanceAt(g, r, |a.agreed|);
      && s.sent <= s'.sent && s'.proposed == s.proposed + {e} && w in s'.proposed
      && Reachable(g, s') && Chosen(g, s', w)
    ensures
      var r' := Written(r, |a.agreed|, s', l, w);
      && R.Simulates(g, r', A.AfterRound(a, e, w, l, FirstHole(r'.logs[l])))
      && (FirstHole(r.logs[l]) == |a.agreed| ==> FirstHole(r'.logs[l]) == |a.agreed| + 1)
  {
    var i := |a.agreed|;
    var r' := Written(r, i, s', l, w);
    var a' := A.AfterRound(a, e, w, l, FirstHole(r'.logs[l]));
    NobodyHasLearned(g, r, a, l);
    NothingAbove(g, r, a, i + 1, l);
    FirstHoleAfter(r.logs[l], i, w);
    R.ReplacedKeeps(g, r, r', i, s');
    R.ChosenAtStays(g, r, r', i, s');
    assert R.ChosenAt(g, r', i, w);
    RoundRefines(g, r, a, r', s', e, w, a', l);
  }

  lemma NothingAbove(g: Group, r: R.Replicas, a: A.AgreedLog, i: nat, l: nat)
    requires R.Simulates(g, r, a) && i >= |a.agreed| && l < g.n
    ensures i !in r.logs[l]
  {
  }

  lemma RoundRefines(
    g: Group, r: R.Replicas, a: A.AgreedLog, r': R.Replicas, s': System, e: Entry, w: Entry, a': A.AgreedLog, l: nat)
    requires Sound(g) && R.Refines(g, r, a) && l < g.n == |r.logs| == |r'.logs|
    requires R.Replaced(g, r, r', |a.agreed|, s') && w in s'.proposed
    requires r'.logs == r.logs[l := r'.logs[l]] && a' == A.AfterRound(a, e, w, l, FirstHole(r'.logs[l]))
    requires FirstHole(r'.logs[l]) <= |a'.agreed|
    requires s'.proposed == R.InstanceAt(g, r, |a.agreed|).proposed + {e}
    requires forall j: nat, v :: R.ChosenAt(g, r, j, v) ==> R.ChosenAt(g, r', j, v)
    requires forall j: nat, v :: j != |a.agreed| ==> (R.ChosenAt(g, r', j, v) <==> R.ChosenAt(g, r, j, v))
    requires R.ChosenAt(g, r', |a.agreed|, w)
    ensures R.Refines(g, r', a')
  {
    var i := |a.agreed|;
    assert forall j: nat :: j != i ==> R.InstanceAt(g, r', j) == R.InstanceAt(g, r, j);
    assert A.Offer(i, w) in a'.offers;
    assert A.WellFormed(a');
  }

  /** The round in the instance: all but the last message, and that one, which makes l write w. */
  lemma InstanceRound(g: Group, s: System, p: nat, e: Entry, l: nat)
    returns (x: System, env: Envelope, s': System, w: Entry)
    requires Sound(g) && Reachable(g, s) && Small(s) && p < g.n && CanFinish(g, s, p)
    requires |s.nodes| == g.n && l < g.n && !s.nodes[l].learned
    ensures Leads(SoloSteps(g, p, e), s, x) && |x.nodes| == g.n
    ensures env in x.net && env.dst == l && Received(g, x, env).wrote == Some(w) && s' == AfterDeliver(g, x, env)
    ensures s.sent <= s'.sent && s'.proposed == s.proposed + {e} && w in s'.proposed
    ensures Reachable(g, s') && Chosen(g, s', w)
  {
    x, s', w := LastRound(g, s, p, l, e);
    env :| env in x.net && env.dst == l < |x.nodes| && Received(g, x, env).wrote == Some(w)
           && s' == AfterDeliver(g, x, env);
    AllNodes(g, x);
    ReachableHolds(g, s');
    RoundSent(g, s, x, s', p, e, l, w);
  }

  lemma AllNodes(g: Group, s: System)
    requires Sound(g) && Reachable(g, s)
    ensures |s.nodes| == g.n
  {
    ReachableHolds(g, s);
  }

  lemma RoundSent(g: Group, s: System, x: System, s': System, p: nat, e: Entry, l: nat, w: Entry)
    requires Sound(g) && Leads(SoloSteps(g, p, e), s, x) && x.proposed == s.proposed + {e}
    requires Writes(g, x, s', l, w) && Inv(g, s')
    ensures s.sent <= s'.sent && s'.proposed == s.proposed + {e} && Chosen(g, s', w)
  {
    SoloLeads(g, p, e, s, x);
    SentGrows(g, s, x);
    WriteIsNext(g, x, s', l, w);
    assert Output(l, w) in s'.outputs && Output(l, w).value == w;
  }

  lemma LastMessageMoves(
    g: Group, r: R.Replicas, i: nat, x: System, env: Envelope, s': System, l: nat, w: Entry)
    requires |r.logs| == g.n == |x.nodes| && l < g.n && env in x.net && env.dst == l
    requires Received(g, x, env).wrote == Some(w) && s' == AfterDeliver(g, x, env)
    ensures R.Working(g, Placed(g, r, i, x), Written(r, i, s', l, w), l)
  {
    assert R.Delivering(g, Placed(g, r, i, x), Written(r, i, s', l, w), i, env);
  }

  /** The round in the first instance that p lacks, as the replicas' moves: at the end l writes w. */
  lemma RoundMoves(g: Group, r: R.Replicas, p: nat, e: Entry, l: nat)
    returns (m: R.Replicas, s': System, w: Entry)
    requires Sound(g) && |r.logs| == g.n && p < g.n && l < g.n && Opens(g, r, p, FirstHole(r.logs[p]))
    requires
      var s := R.InstanceAt(g, r, FirstHole(r.logs[p]));
      Reachable(g, s) && |s.nodes| == g.n && !s.nodes[l].learned
    ensures Leads(SoloMoves(g, p, e), r, m) && m.logs == r.logs
    ensures R.Working(g, m, Written(r, FirstHole(r.logs[p]), s', l, w), l)
    ensures
      var s := R.InstanceAt(g, r, FirstHole(r.logs[p]));
      && s.sent <= s'.sent && s'.proposed == s.proposed + {e} && w in s'.proposed
      && Reachable(g, s') && Chosen(g, s', w)
  {
    var i := FirstHole(r.logs[p]);
    var x, env;
    x, env, s', w := InstanceRound(g, R.InstanceAt(g, r, i), p, e, l);
    SoloMovesReplicas(g, r, i, p, e, x);
    m := Placed(g, r, i, x);
    SoloKeepsLogs(g, p, e, r, m);
    LastMessageMoves(g, r, i, x, env, s', l, w);
  }

  lemma ProposedIsOffered(g: Group, r: R.Replicas, a: A.AgreedLog, i: nat, w: Entry)
    requires R.Simulates(g, r, a) && w in R.InstanceAt(g, r, i).proposed
    ensures A.Offer(i, w) in a.offers
  {
  }

  /**
   Replica p proposes e for the end of the agreed log, and replica l comes to write the entry that is
   decided: e itself, or another on offer there. Up to the last message, no log changes.
  */
  lemma ReplicaRound(g: Group, r: R.Replicas, a: A.AgreedLog, p: nat, e: Entry, l: nat)
    returns (m: R.Replicas, r': R.Replicas, w: Entry)
    requires Sound(g) && R.Simulates(g, r, a) && p < g.n && l < g.n
    requires FirstHole(r.logs[p]) == |a.agreed| && Opens(g, r, p, |a.agreed|)
    ensures Leads(SoloMoves(g, p, e), r, m) && m.logs == r.logs && R.Working(g, m, r', l)
    ensures w == e || A.Offer(|a.agreed|, w) in a.offers
    ensures R.Simulates(g, r', A.AfterRound(a, e, w, l, FirstHole(r'.logs[l])))
    ensures r'.logs == r.logs[l := Filled(r.logs[l], |a.agreed|, w)]
    ensures r'.instances == r.instances[|a.agreed| := R.InstanceAt(g, r', |a.agreed|)]
    ensures FirstHole(r.logs[l]) == |a.agreed| ==> FirstHole(r'.logs[l]) == |a.agreed| + 1
  {
    assert R.Sane(g, r, |a.agreed|);
    NobodyHasLearned(g, r, a, l);
    var s';
    m, s', w := RoundMoves(g, r, p, e, l);
    r' := Written(r, |a.agreed|, s', l, w);
    RoundIsSimulated(g, r, a, s', e, w, l);
    if w != e {
      ProposedIsOffered(g, r, a, |a.agreed|, w);
    }
  }

  lemma LearnedAll(g: Group, r: R.Replicas, a: A.AgreedLog, l: nat)
    requires Sound(g) && R.Simulates(g, r, a) && l < g.n && FirstHole(r.logs[l]) == |a.agreed|
    ensures Delivered(r.logs[l]) == a.agreed
  {
    R.LogsAreAgreed(g, r, a, l);
  }

  /** When nothing else is on offer, it is e that is written, and again nothing else is on offer. */
  lemma FreshRound(g: Group, r: R.Replicas, a: A.AgreedLog, p: nat, e: Entry, l: nat)
    returns (m: R.Replicas, r': R.Replicas, a': A.AgreedLog)
    requires Sound(g) && g.threshold <= g.n && R.Simulates(g, r, a) && A.IsFresh(a) && p < g.n && l < g.n
    requires FirstHole(r.logs[p]) == |a.agreed| == FirstHole(r.logs[l])
    ensures Leads(SoloMoves(g, p, e), r, m) && m.logs == r.logs && R.Working(g, m, r', l)
    ensures R.Simulates(g, r', a') && A.IsFresh(a') && a' == A.AfterRound(a, e, e, l, |a.agreed| + 1)
    ensures |r'.logs| == g.n && r'.logs == r.logs[l := r'.logs[l]]
    ensures FirstHole(r'.logs[l]) == |a.agreed| + 1 && Delivered(r'.logs[l]) == a'.agreed
  {
    FreshIsOpen(g, r, a, p);
    var w;
    m, r', w := ReplicaRound(g, r, a, p, e, l);
    assert w == e;
    a' := A.AfterRound(a, e, e, l, |a.agreed| + 1);
    A.RoundIsFresh(a, e, e, l, |a.agreed| + 1);
    LearnedAll(g, r', a', l);
  }
}
