/**
 The tablets of a group on their Paxos replicas. Each node runs its request tasks against its own
 store, proposes what they propose, and delivers what its own log comes to hold, by learning or by
 syncing. A node that has halted does nothing any more.
*/
module TabletOnPaxos {
  import opened Wrappers
  import opened Paths
  import opened Entries
  import opened PaxosProtocol
  import opened PaxosAgreement
  import opened PaxosLogs
  import opened ClientRequests
  import R = ReplicatedLog
  import T = Tablet
  import H = TabletHalting
  import W = TabletAnswers
  import A = AgreedLogs

  datatype Nodes = Nodes(paxos: R.Replicas, tablets: seq<Replica>)

  function InitNodes(g: Group): Nodes {
    Nodes(R.InitReplicas(g), seq(g.n, _ => INIT_REPLICA))
  }

  // ----- Steps -----

  /** The entry that node p's log has at the index of a request, if the request was delivered. */
  function FoundEntry(s: Nodes, p: nat, id: string): Option<Entry>
    requires p < |s.tablets| && p < |s.paxos.logs|
  {
    var ids := s.tablets[p].requestIds;
    if id in ids && ids[id] in s.paxos.logs[p] then Some(s.paxos.logs[p][ids[id]]) else None
  }

  ghost predicate RunsTask(g: Group, s: Nodes, s': Nodes, p: nat, request: Request, retries: nat, number: nat) {
    && p < |s.tablets| && p < |s.paxos.logs| && !s.tablets[p].halted
    && var (action, store) := TaskRun(s.tablets[p], FoundEntry(s, p, request.id), request, retries);
      && s'.tablets == s.tablets[p := s.tablets[p].(store := store)]
      && if action.ProposeAndWait? then R.Proposing(g, s.paxos, s'.paxos, p, number, action.entry)
         else s'.paxos == s.paxos
  }

  /** The tablet after the log has grown: it has delivered what is new in the filled prefix. */
  function CaughtUp(tablet: Replica, log: Log, log': Log): Replica {
    if FirstHole(log) <= FirstHole(log') then
      T.DeliverRange(tablet, Delivered(log'), FirstHole(log), FirstHole(log'))
    else tablet
  }

  ghost predicate Works(g: Group, s: Nodes, s': Nodes, p: nat) {
    && p < |s.tablets| && p < |s.paxos.logs| && p < |s'.paxos.logs| && !s.tablets[p].halted
    && R.Working(g, s.paxos, s'.paxos, p)
    && s'.tablets == s.tablets[p := CaughtUp(s.tablets[p], s.paxos.logs[p], s'.paxos.logs[p])]
  }

  ghost predicate Loses(g: Group, s: Nodes, s': Nodes) {
    s'.tablets == s.tablets && exists i, env :: R.Losing(g, s.paxos, s'.paxos, i, env)
  }

  ghost predicate Next(g: Group, s: Nodes, s': Nodes) {
    || (exists p, request, retries, number :: RunsTask(g, s, s', p, request, retries, number))
    || (exists p :: Works(g, s, s', p))
    || Loses(g, s, s')
  }

  ghost function Steps(g: Group): Relation<Nodes> {
    (s, s') => Next(g, s, s')
  }

  ghost predicate Reached(g: Group, s: Nodes) {
    Leads(Steps(g), InitNodes(g), s)
  }

  // ----- Each step is one of the tablet group over the agreed log, or does not show -----

  ghost predicate Simulates(g: Group, s: Nodes, t: T.TabletGroup) {
    && R.Simulates(g, s.paxos, t.log) && t.replicas == s.tablets
    && T.Reached(g.n, t) && T.Inv(t) && |t.replicas| == g.n
  }

  lemma TabletGoesOn(g: Group, t: T.TabletGroup, t': T.TabletGroup)
    requires T.Reached(g.n, t) && (t' == t || T.Next(t, t'))
    ensures T.Reached(g.n, t') && T.Inv(t') && |t'.replicas| == g.n
  {
    if t' != t {
      LeadsOn(T.Steps(), T.InitGroup(g.n), t, t');
    }
    T.ReachedHolds(g.n, t');
  }

  lemma SameFound(g: Group, s: Nodes, t: T.TabletGroup, p: nat, id: string)
    requires Sound(g) && Simulates(g, s, t) && p < g.n && !s.tablets[p].halted
    ensures p < |s.paxos.logs| && p < |t.replicas| && FoundEntry(s, p, id) == T.FoundEntry(t, p, id)
  {
    R.LogsAreAgreed(g, s.paxos, t.log, p);
    var i := H.FoundIsDelivered(t, p, id);
    var ids := t.replicas[p].requestIds;
    T.AgreedIsLawful(g.n, t);
    T.ReplayIsExact(A.Prefix(t.log, p));
    assert id in ids ==> ids[id] < |Delivered(s.paxos.logs[p])|;
  }

  lemma TaskSimulates(
    g: Group, s: Nodes, s': Nodes, t: T.TabletGroup, p: nat, request: Request, retries: nat, number: nat)
    returns (t': T.TabletGroup)
    requires Sound(g) && Simulates(g, s, t) && RunsTask(g, s, s', p, request, retries, number)
    ensures Simulates(g, s', t')
  {
    SameFound(g, s, t, p, request.id);
    var action := TaskRun(s.tablets[p], FoundEntry(s, p, request.id), request, retries).0;
    var log := t.log;
    if action.ProposeAndWait? {
      log := R.ProposingSimulates(g, s.paxos, s'.paxos, t.log, p, number, action.entry);
    }
    t' := T.TabletGroup(log, s'.tablets);
    assert T.RunsTask(t, t', p, request, retries);
    TabletGoesOn(g, t, t');
  }

  lemma WorkIsNext(t: T.TabletGroup, t': T.TabletGroup, p: nat, before: Log, after: Log)
    requires p < |t.replicas| && p < |t.log.seen| && !t.replicas[p].halted
    requires A.WellFormed(t.log) && A.WellFormed(t'.log) && p < |t'.log.seen|
    requires FirstHole(before) == t.log.seen[p] && Delivered(after) == A.Prefix(t'.log, p)
    requires t'.replicas == t.replicas[p := CaughtUp(t.replicas[p], before, after)]
    requires A.Advances(t.log, t'.log, p, FirstHole(after))
             || (FirstHole(after) == FirstHole(before) && exists e :: A.Decides(t.log, t'.log, e))
    ensures T.Next(t, t')
  {
    if A.Advances(t.log, t'.log, p, FirstHole(after)) {
      T.DeliverRangeSame(t.replicas[p], Delivered(after), t.log.agreed, t.log.seen[p], FirstHole(after));
      assert T.Advances(t, t', p, FirstHole(after));
    } else {
      var e :| A.Decides(t.log, t'.log, e);
      assert t'.replicas == t.replicas;
      assert T.Decides(t, t', e);
    }
  }

  lemma WorkSimulates(g: Group, s: Nodes, s': Nodes, t: T.TabletGroup, p: nat) returns (t': T.TabletGroup)
    requires Sound(g) && Simulates(g, s, t) && Works(g, s, s', p)
    ensures Simulates(g, s', t')
  {
    var log := R.WorkingShows(g, s.paxos, s'.paxos, t.log, p);
    t' := T.TabletGroup(log, s'.tablets);
    WorkIsNext(t, t', p, s.paxos.logs[p], s'.paxos.logs[p]);
    TabletGoesOn(g, t, t');
  }

  lemma NextSimulates(g: Group, s: Nodes, s': Nodes, t: T.TabletGroup) returns (t': T.TabletGroup)
    requires Sound(g) && Simulates(g, s, t) && Next(g, s, s')
    ensures Simulates(g, s', t')
  {
    if p, request, retries, number :| RunsTask(g, s, s', p, request, retries, number) {
      t' := TaskSimulates(g, s, s', t, p, request, retries, number);
    } else if p :| Works(g, s, s', p) {
      t' := WorkSimulates(g, s, s', t, p);
    } else {
      var i, env :| R.Losing(g, s.paxos, s'.paxos, i, env);
      R.LoseRefines(g, s.paxos, s'.paxos, t.log, i, env);
      t' := t;
    }
  }

  lemma InitSimulates(g: Group)
    requires g.threshold > 0 && Sound(g)
    ensures Simulates(g, InitNodes(g), T.InitGroup(g.n))
  {
    R.InitSimulates(g);
    LeadsToItself(T.Steps(), T.InitGroup(g.n));
    T.ReachedHolds(g.n, T.InitGroup(g.n));
  }

  /** Whatever the nodes come to, a tablet group over an agreed log can come to as well. */
  lemma ReachedSimulates(g: Group, s: Nodes) returns (t: T.TabletGroup)
    requires g.threshold > 0 && Sound(g) && Reached(g, s)
    ensures Simulates(g, s, t)
  {
    var inv := (s: Nodes) => exists t :: Simulates(g, s, t);
    InitSimulates(g);
    forall s, s' | inv(s) && Next(g, s, s')
      ensures inv(s')
    {
      var t :| Simulates(g, s, t);
      var t' := NextSimulates(g, s, s', t);
    }
    LeadsKeeps(Steps(g), inv, InitNodes(g), s);
    t :| Simulates(g, s, t);
  }

  // ----- What holds of the nodes -----

  /** What node p's log has for the tablet to deliver. */
  function LogOf(s: Nodes, p: nat): seq<Entry>
    requires p < |s.paxos.logs|
  {
    Delivered(s.paxos.logs[p])
  }

  /** What any node has delivered was lawful to propose, and replays without ever writing to the past. */
  lemma DeliveredReplays(g: Group, s: Nodes, p: nat)
    requires g.threshold > 0 && Sound(g) && Reached(g, s) && p < g.n
    ensures |s.paxos.logs| == |s.tablets| == g.n
    ensures T.Lawful(LogOf(s, p)) && !T.Replay(LogOf(s, p)).halted
  {
    var t := ReachedSimulates(g, s);
    R.LogsAreAgreed(g, s.paxos, t.log, p);
    T.AgreedIsLawful(g.n, t);
    T.ReplayNeverHalts(LogOf(s, p));
  }

  /** A request id is at one index at most, at whichever nodes and however often it was retried. */
  lemma DeliveredAtMostOnce(g: Group, s: Nodes, p: nat, q: nat, i: nat, j: nat)
    requires g.threshold > 0 && Sound(g) && Reached(g, s) && p < g.n && q < g.n
    requires |s.paxos.logs| == g.n && i < |LogOf(s, p)| && j < |LogOf(s, q)|
    ensures
      var x, y := LogOf(s, p)[i], LogOf(s, q)[j];
      && T.IsRequest(x) && T.IsRequest(y)
      && (x.requestId == y.requestId ==> i == j && x == y)
  {
    var t := ReachedSimulates(g, s);
    R.LogsAreAgreed(g, s.paxos, t.log, p);
    R.LogsAreAgreed(g, s.paxos, t.log, q);
    T.AgreedIsLawful(g.n, t);
    T.AtMostOnce(t.log.agreed, i, j);
  }

  /**
   A node that has not halted has exactly the versions of what it delivered, with last accesses no
   earlier. One that has halted delivered an early READ and a write in whose way it stands.
  */
  lemma NodesFollowTheirLogs(g: Group, s: Nodes, p: nat)
    requires g.threshold > 0 && Sound(g) && Reached(g, s) && p < g.n
    ensures |s.paxos.logs| == |s.tablets| == g.n
    ensures !s.tablets[p].halted ==> T.Follows(s.tablets[p], T.Replay(LogOf(s, p)))
    ensures s.tablets[p].halted ==> H.CanGoWrong(LogOf(s, p))
    ensures s.tablets[p] == T.Replay(LogOf(s, p)) || H.CanDrift(LogOf(s, p))
  {
    var t := ReachedSimulates(g, s);
    R.LogsAreAgreed(g, s.paxos, t.log, p);
    H.HaltedDeliveredRaise(g.n, t, p);
    H.InStepUnlessDrifting(g.n, t, p);
  }

  /**
   Whatever a task does at a node that is up is right by what the node's own log holds: see RightAction.
   So whoever is told of success by any node finds the request in its log.
  */
  lemma NodeTasksAreRight(g: Group, s: Nodes, p: nat, request: Request, retries: nat)
    requires g.threshold > 0 && Sound(g) && Reached(g, s) && p < g.n
    ensures |s.paxos.logs| == |s.tablets| == g.n
    ensures !s.tablets[p].halted ==>
      W.RightAction(LogOf(s, p), s.tablets[p].store, request, retries,
                    TaskRun(s.tablets[p], FoundEntry(s, p, request.id), request, retries).0)
  {
    var t := ReachedSimulates(g, s);
    R.LogsAreAgreed(g, s.paxos, t.log, p);
    if !s.tablets[p].halted {
      SameFound(g, s, t, p, request.id);
      W.TasksAreRight(g.n, t, p, request, retries);
    }
  }

  /** A client whom two nodes tell of success for one id was served by one entry, at one index of both logs. */
  lemma NodesServeOnce(
    g: Group, s: Nodes, p: nat, request: Request, retries: nat, q: nat, request': Request, retries': nat)
    returns (i: nat)
    requires g.threshold > 0 && Sound(g) && Reached(g, s) && p < g.n && q < g.n && request'.id == request.id
    requires |s.paxos.logs| == |s.tablets| == g.n && !s.tablets[p].halted && !s.tablets[q].halted
    requires
      var action := TaskRun(s.tablets[p], FoundEntry(s, p, request.id), request, retries).0;
      action.Respond? && action.response.Success?
    requires
      var action := TaskRun(s.tablets[q], FoundEntry(s, q, request.id), request', retries').0;
      action.Respond? && action.response.Success?
    ensures W.IsDelivered(LogOf(s, p), request.id, i) && W.IsDelivered(LogOf(s, q), request.id, i)
    ensures LogOf(s, p)[i] == LogOf(s, q)[i]
  {
    i := ServedAt(g, s, p, request, retries);
    var j := ServedAt(g, s, q, request', retries');
    DeliveredAtMostOnce(g, s, p, q, i, j);
  }

  lemma ServedAt(g: Group, s: Nodes, p: nat, request: Request, retries: nat) returns (i: nat)
    requires g.threshold > 0 && Sound(g) && Reached(g, s) && p < g.n
    requires |s.paxos.logs| == |s.tablets| == g.n && !s.tablets[p].halted
    requires
      var action := TaskRun(s.tablets[p], FoundEntry(s, p, request.id), request, retries).0;
      action.Respond? && action.response.Success?
    ensures W.IsDelivered(LogOf(s, p), request.id, i)
  {
    NodeTasksAreRight(g, s, p, request, retries);
    DeliveredReplays(g, s, p);
    W.SuccessIsDelivered(LogOf(s, p), s.tablets[p].store, request, retries,
                         TaskRun(s.tablets[p], FoundEntry(s, p, request.id), request, retries).0);
    i :| W.IsDelivered(LogOf(s, p), request.id, i);
  }
}
