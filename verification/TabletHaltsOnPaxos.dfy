/**
 The runs in which answering a READ makes a Paxos node halt, or leave the replay of its log. The
 entries of the log are proposed and learned one after the other, each through a new Paxos instance,
 and another node catches up by syncing.
*/
module TabletHaltsOnPaxos {
  import opened Wrappers
  import opened Paths
  import opened Entries
  import opened PaxosAgreement
  import opened PaxosLogs
  import opened KVStores
  import opened ClientRequests
  import opened ReplicaRuns
  import opened ReplicaProgress
  import opened TabletOnPaxos
  import P = PaxosProtocol
  import R = ReplicatedLog
  import T = Tablet
  import H = TabletHalting
  import A = AgreedLogs

  // ----- From the replicas to the nodes -----

  ghost predicate NoneHalted(s: Nodes) {
    forall q :: 0 <= q < |s.tablets| ==> !s.tablets[q].halted
  }

  /** A task of node p for this request proposes e, and goes on doing so as long as nothing is delivered. */
  ghost predicate TaskProposes(s: Nodes, p: nat, request: Request, e: Entry) {
    && p < |s.tablets| && p < |s.paxos.logs|
    && TaskRun(s.tablets[p], FoundEntry(s, p, request.id), request, 0) == (ProposeAndWait(e), s.tablets[p].store)
  }

  lemma IdleNodes(g: P.Group, s: Nodes, paxos: R.Replicas)
    requires NoneHalted(s) && |s.tablets| == |s.paxos.logs| && Idles(g, s.paxos, paxos)
    ensures Next(g, s, s.(paxos := paxos))
  {
    var d: nat :| d < |s.paxos.logs| && R.Working(g, s.paxos, paxos, d);
    assert s.tablets[d := s.tablets[d]] == s.tablets;
    assert Works(g, s, s.(paxos := paxos), d);
  }

  lemma ProposingNode(g: P.Group, s: Nodes, p: nat, request: Request, e: Entry, paxos: R.Replicas)
    requires NoneHalted(s) && TaskProposes(s, p, request, e) && ProposesAt(g, s.paxos, paxos, p, e)
    ensures Next(g, s, s.(paxos := paxos))
  {
    var number :| R.Proposing(g, s.paxos, paxos, p, number, e);
    assert s.tablets[p := s.tablets[p].(store := s.tablets[p].store)] == s.tablets;
    assert RunsTask(g, s, s.(paxos := paxos), p, request, 0, number);
  }

  /** What the replicas do without writing, the nodes do without delivering. */
  lemma SoloOnNodes(g: P.Group, s: Nodes, p: nat, request: Request, e: Entry, m: R.Replicas)
    requires NoneHalted(s) && |s.tablets| == |s.paxos.logs| && TaskProposes(s, p, request, e)
    requires Leads(SoloMoves(g, p, e), s.paxos, m)
    ensures Leads(Steps(g), s, s.(paxos := m))
  {
    var inv := (x: R.Replicas) => x.logs == s.paxos.logs && Leads(Steps(g), s, s.(paxos := x));
    LeadsToItself(Steps(g), s);
    assert s.(paxos := s.paxos) == s;
    forall x, y | inv(x) && SoloMoves(g, p, e)(x, y)
      ensures inv(y)
    {
      var t := s.(paxos := x);
      if Idles(g, x, y) {
        IdleNodes(g, t, y);
      } else if DropsOne(g, x, y) {
        assert Loses(g, t, t.(paxos := y));
      } else {
        ProposingNode(g, t, p, request, e, y);
      }
      LeadsOn(Steps(g), s, t, t.(paxos := y));
    }
    LeadsKeeps(SoloMoves(g, p, e), inv, s.paxos, m);
  }

  // ----- Writing a log -----

  // The replicas have agreed on exactly these entries, and nothing else is on offer.
  ghost predicate Wrote(g: P.Group, r: R.Replicas, a: A.AgreedLog, entries: seq<Entry>) {
    R.Simulates(g, r, a) && A.IsFresh(a) && a.agreed == entries
  }

  // Node q has delivered the first k entries of the log.
  ghost predicate HasDelivered(s: Nodes, q: nat, log: seq<Entry>, k: nat) {
    && q < |s.tablets| && q < |s.paxos.logs| && k <= |log|
    && FirstHole(s.paxos.logs[q]) == k && s.tablets[q] == T.Replay(log[..k])
  }

  ghost predicate Running(g: P.Group, s: Nodes) {
    |s.tablets| == g.n == |s.paxos.logs| && Reached(g, s) && NoneHalted(s)
  }

  lemma SoloReaches(g: P.Group, s: Nodes, p: nat, request: Request, e: Entry, m: R.Replicas)
    requires Running(g, s) && TaskProposes(s, p, request, e) && Leads(SoloMoves(g, p, e), s.paxos, m)
    ensures Reached(g, s.(paxos := m))
  {
    SoloOnNodes(g, s, p, request, e, m);
    LeadsThrough(Steps(g), InitNodes(g), s, s.(paxos := m));
  }

  lemma NextIsProposed(s: Nodes, w: nat, log: seq<Entry>, j: nat)
    requires T.Lawful(log) && j < |log| && HasDelivered(s, w, log, j)
    ensures T.IsRequest(log[j]) && TaskProposes(s, w, H.RequestOf(log[j]), log[j])
  {
    assert T.MayPropose(log[..j], log[j]);
    T.PrefixNeverHalts(log, j);
  }

  lemma ProposedBy(g: P.Group, s: Nodes, w: nat, log: seq<Entry>, j: nat, m: R.Replicas)
    requires Running(g, s) && T.Lawful(log) && j < |log| && HasDelivered(s, w, log, j)
    requires Leads(SoloMoves(g, w, log[j]), s.paxos, m)
    ensures Reached(g, s.(paxos := m))
  {
    NextIsProposed(s, w, log, j);
    SoloReaches(g, s, w, H.RequestOf(log[j]), log[j], m);
  }

  // Replica l has come to hold one entry more, and no other log has changed.
  ghost predicate LearnedNext(g: P.Group, m: R.Replicas, r: R.Replicas, l: nat, log: seq<Entry>, j: nat) {
    && l < |m.logs| && |r.logs| == |m.logs| && r.logs == m.logs[l := r.logs[l]] && R.Working(g, m, r, l)
    && j < |log| && FirstHole(r.logs[l]) == j + 1 && Delivered(r.logs[l]) == log[..j + 1]
  }

  /** Replica w proposes the next entry and replica l, which has delivered all before it, learns it. */
  lemma NextIsLearned(g: P.Group, r: R.Replicas, a: A.AgreedLog, w: nat, log: seq<Entry>, j: nat, l: nat)
    returns (m: R.Replicas, r': R.Replicas, a': A.AgreedLog)
    requires Sound(g) && g.threshold <= g.n && j < |log| && Wrote(g, r, a, log[..j])
    requires w < g.n && l < g.n && FirstHole(r.logs[w]) == j == FirstHole(r.logs[l])
    ensures Leads(SoloMoves(g, w, log[j]), r, m) && m.logs == r.logs
    ensures LearnedNext(g, m, r', l, log, j) && Wrote(g, r', a', log[..j + 1])
  {
    m, r', a' := FreshRound(g, r, a, w, log[j], l);
    assert log[..j] + [log[j]] == log[..j + 1];
  }

  lemma CaughtUpByOne(log: seq<Entry>, j: nat, before: Log, after: Log)
    requires j < |log| && FirstHole(before) == j && FirstHole(after) == j + 1 && Delivered(after) == log[..j + 1]
    ensures CaughtUp(T.Replay(log[..j]), before, after) == OnEntry(T.Replay(log[..j]), j, log[j])
  {
    assert T.DeliverRange(T.Replay(log[..j]), Delivered(after), j, j) == T.Replay(log[..j]);
  }

  /** Node w works: its log grows by the entry, and its tablet delivers it. */
  lemma WorksByOne(g: P.Group, t: Nodes, r: R.Replicas, w: nat, log: seq<Entry>, j: nat) returns (s': Nodes)
    requires Running(g, t) && T.Lawful(log)
    requires HasDelivered(t, w, log, j) && LearnedNext(g, t.paxos, r, w, log, j)
    ensures Running(g, s') && HasDelivered(s', w, log, j + 1)
    ensures s' == Nodes(r, t.tablets[w := s'.tablets[w]])
  {
    CaughtUpByOne(log, j, t.paxos.logs[w], r.logs[w]);
    T.ReplayNext(log, j);
    T.PrefixNeverHalts(log, j + 1);
    s' := Nodes(r, t.tablets[w := T.Replay(log[..j + 1])]);
    assert Works(g, t, s', w);
    LeadsOn(Steps(g), InitNodes(g), t, s');
  }

  // The others have neither learned nor delivered anything.
  ghost predicate OthersIdle(s: Nodes, w: nat) {
    && |s.tablets| == |s.paxos.logs|
    && forall q :: 0 <= q < |s.tablets| && q != w ==> s.paxos.logs[q] == map[] && s.tablets[q] == INIT_REPLICA
  }

  lemma WorksAlone(g: P.Group, s: Nodes, m: R.Replicas, r: R.Replicas, w: nat, log: seq<Entry>, j: nat)
    returns (s': Nodes)
    requires Running(g, s) && T.Lawful(log) && HasDelivered(s, w, log, j) && OthersIdle(s, w)
    requires m.logs == s.paxos.logs && LearnedNext(g, m, r, w, log, j)
    requires Leads(SoloMoves(g, w, log[j]), s.paxos, m)
    ensures Running(g, s') && HasDelivered(s', w, log, j + 1) && OthersIdle(s', w) && s'.paxos == r
  {
    ProposedBy(g, s, w, log, j, m);
    s' := WorksByOne(g, s.(paxos := m), r, w, log, j);
  }

  lemma {:induction false} WriteLog(g: P.Group, w: nat, log: seq<Entry>, j: nat) returns (s: Nodes, a: A.AgreedLog)
    requires Sound(g) && g.threshold <= g.n && T.Lawful(log) && w < g.n && j <= |log|
    ensures Running(g, s) && Wrote(g, s.paxos, a, log[..j])
    ensures HasDelivered(s, w, log, j) && OthersIdle(s, w)
  {
    if j == 0 {
      s, a := InitNodes(g), A.InitLog(g.n);
      LeadsToItself(Steps(g), s);
      R.InitSimulates(g);
      FirstHoleIs(map[], 0);
    } else {
      var t, b := WriteLog(g, w, log, j - 1);
      var m, r;
      m, r, a := NextIsLearned(g, t.paxos, b, w, log, j - 1, w);
      s := WorksAlone(g, t, m, r, w, log, j - 1);
    }
  }

  // ----- Catching up by syncing -----

  /** Replica p gets all that replica w has. */
  lemma SyncAll(g: P.Group, r: R.Replicas, a: A.AgreedLog, w: nat, p: nat)
    returns (m: R.Replicas, r': R.Replicas, a': A.AgreedLog)
    requires Sound(g) && Wrote(g, r, a, a.agreed) && w < g.n && p < g.n && FirstHole(r.logs[w]) == |a.agreed|
    ensures Idles(g, r, m) && R.Working(g, m, r', p) && Wrote(g, r', a', a.agreed)
    ensures |r'.logs| == g.n == |r.logs| && r'.logs == r.logs[p := r'.logs[p]]
    ensures FirstHole(r'.logs[p]) == |a.agreed| && Delivered(r'.logs[p]) == a.agreed
  {
    m, r' := SyncReplicas(g, r, a, w, p);
    a' := a.(seen := a.seen[p := FirstHole(r'.logs[p])]);
    LearnedAll(g, r', a', p);
  }

  /** Node p, which has nothing, has come to hold a prefix of the log, and delivers it. */
  lemma WorksFromNothing(g: P.Group, t: Nodes, r: R.Replicas, p: nat, log: seq<Entry>, j: nat) returns (s': Nodes)
    requires Running(g, t) && T.Lawful(log) && p < g.n && t.paxos.logs[p] == map[] && t.tablets[p] == INIT_REPLICA
    requires |r.logs| == g.n && R.Working(g, t.paxos, r, p) && j <= |log|
    requires FirstHole(r.logs[p]) == j && Delivered(r.logs[p]) == log[..j]
    ensures Running(g, s') && HasDelivered(s', p, log, j)
    ensures s' == Nodes(r, t.tablets[p := T.Replay(log[..j])])
  {
    T.PrefixNeverHalts(log, j);
    FirstHoleIs(map[], 0);
    s' := Nodes(r, t.tablets[p := T.Replay(log[..j])]);
    assert Works(g, t, s', p);
    LeadsOn(Steps(g), InitNodes(g), t, s');
  }

  lemma SyncNodes(
    g: P.Group, s: Nodes, m: R.Replicas, r: R.Replicas, w: nat, p: nat, log: seq<Entry>, j: nat)
    returns (s': Nodes)
    requires Running(g, s) && T.Lawful(log) && HasDelivered(s, w, log, j) && OthersIdle(s, w) && p < g.n && p != w
    requires Idles(g, s.paxos, m) && R.Working(g, m, r, p)
    requires |r.logs| == g.n && r.logs == s.paxos.logs[p := r.logs[p]]
    requires FirstHole(r.logs[p]) == j && Delivered(r.logs[p]) == log[..j]
    ensures Running(g, s') && HasDelivered(s', w, log, j) && HasDelivered(s', p, log, j) && s'.paxos == r
  {
    var t := s.(paxos := m);
    IdleNodes(g, s, m);
    LeadsOn(Steps(g), InitNodes(g), s, t);
    s' := WorksFromNothing(g, t, r, p, log, j);
  }

  lemma WriteAndSync(g: P.Group, w: nat, p: nat, log: seq<Entry>, j: nat) returns (s: Nodes, a: A.AgreedLog)
    requires Sound(g) && g.threshold <= g.n && T.Lawful(log) && w < g.n && p < g.n && j <= |log|
    ensures Running(g, s) && Wrote(g, s.paxos, a, log[..j])
    ensures HasDelivered(s, w, log, j) && HasDelivered(s, p, log, j)
  {
    s, a := WriteLog(g, w, log, j);
    if p != w {
      FirstHoleIs(map[], 0);
      if j > 0 {
        var m, r;
        m, r, a := SyncAll(g, s.paxos, a, w, p);
        s := SyncNodes(g, s, m, r, w, p, log, j);
      }
    }
  }

  // ----- Halting -----

  lemma DeliversPrefix(g: P.Group, r: R.Replicas, a: A.AgreedLog, p: nat)
    requires Sound(g) && Wrote(g, r, a, a.agreed) && p < g.n && FirstHole(r.logs[p]) == |a.agreed|
    ensures p < |r.logs| && Delivered(r.logs[p]) == a.agreed
  {
    LearnedAll(g, r, a, p);
  }

  lemma ReadIsFound(s: Nodes, p: nat, log: seq<Entry>, i: nat, k: nat)
    requires T.Lawful(log) && HasDelivered(s, p, log, k) && LogOf(s, p) == log[..k] && i < k && log[i].Read?
    ensures FoundEntry(s, p, log[i].requestId) == Some(log[i])
  {
    T.LawfulPrefix(log, k);
    T.ReplayIsExact(log[..k]);
    assert log[..k][i] == log[i];
    assert Delivered(s.paxos.logs[p])[i] == s.paxos.logs[p][i];
  }

  /** The last steps of such a run: node p answers the READ at index i, learns the write at index k, and halts. */
  ghost predicate AnswerHalts(g: P.Group, t: Nodes, u: Nodes, v: Nodes, p: nat, log: seq<Entry>, i: nat, k: nat)
    requires i < |log| && T.IsRequest(log[i]) && k < |log|
  {
    && p < |t.tablets| && p < |t.paxos.logs| && p < |u.tablets| && p < |v.tablets| && p < |v.paxos.logs|
    && LogOf(t, p) == log[..k] && t.tablets[p] == T.Replay(log[..k])
    && RunsTask(g, t, u, p, H.RequestOf(log[i]), 0, 0) && !u.tablets[p].halted
    && Works(g, u, v, p) && LogOf(v, p) == log[..k + 1] && v.tablets[p].halted
  }

  /**
   Whenever a lawful log has an early READ in the way of a write, a Paxos node can halt for having
   answered the READ. Node w, which may be p, proposes the entries, with numbers that can be drawn.
  */
  lemma AnswerCanHaltNode(g: P.Group, p: nat, w: nat, log: seq<Entry>, i: nat, k: nat)
    returns (t: Nodes, u: Nodes, v: Nodes)
    requires Sound(g) && g.threshold <= g.n && p < g.n && w < g.n && T.Lawful(log) && H.Raises(log, i, k)
    ensures Reached(g, t) && Reached(g, u) && Reached(g, v)
    ensures AnswerHalts(g, t, u, v, p, log, i, k)
  {
    var s, a := WriteAndSync(g, w, p, log, k);
    var m, r, a' := NextIsLearned(g, s.paxos, a, w, log, k, p);
    DeliversPrefix(g, s.paxos, a, p);
    ProposedBy(g, s, w, log, k, m);
    t := s.(paxos := m);
    u, v := AnswersAndHalts(g, t, r, p, log, i, k);
  }

  // What answering the READ leaves of the tablet.
  function Raised(log: seq<Entry>, i: nat, k: nat): Replica
    requires i < |log| && k <= |log| && log[i].Read?
  {
    var r := T.Replay(log[..k]);
    r.(store := AfterRead(r.store, log[i].key, log[i].timestamp))
  }

  lemma AnswersRead(g: P.Group, t: Nodes, p: nat, log: seq<Entry>, i: nat, k: nat) returns (u: Nodes)
    requires T.Lawful(log) && i < k <= |log| && log[i].Read? && Reached(g, t)
    requires HasDelivered(t, p, log, k) && LogOf(t, p) == log[..k]
    ensures T.IsRequest(log[i]) && RunsTask(g, t, u, p, H.RequestOf(log[i]), 0, 0)
    ensures Reached(g, u) && u.paxos == t.paxos && |u.tablets| == |t.tablets| && u.tablets[p] == Raised(log, i, k)
  {
    T.PrefixNeverHalts(log, k);
    ReadIsFound(t, p, log, i, k);
    u := t.(tablets := t.tablets[p := Raised(log, i, k)]);
    assert RunsTask(g, t, u, p, H.RequestOf(log[i]), 0, 0);
    LeadsOn(Steps(g), InitNodes(g), t, u);
  }

  lemma LearnsAndHalts(g: P.Group, u: Nodes, r: R.Replicas, p: nat, log: seq<Entry>, i: nat, k: nat)
    returns (v: Nodes)
    requires T.Lawful(log) && H.Raises(log, i, k) && Reached(g, u)
    requires p < |u.tablets| && u.tablets[p] == Raised(log, i, k)
    requires LearnedNext(g, u.paxos, r, p, log, k) && FirstHole(u.paxos.logs[p]) == k
    ensures Reached(g, v) && v.paxos == r && p < |v.tablets| && v.tablets[p].halted
    ensures Works(g, u, v, p) && !u.tablets[p].halted
  {
    T.PrefixNeverHalts(log, k);
    HaltsOnNext(log, i, k, u.paxos.logs[p], r.logs[p]);
    v := Nodes(r, u.tablets[p := CaughtUp(u.tablets[p], u.paxos.logs[p], r.logs[p])]);
    assert Works(g, u, v, p);
    LeadsOn(Steps(g), InitNodes(g), u, v);
  }

  lemma HaltsOnNext(log: seq<Entry>, i: nat, k: nat, before: Log, after: Log)
    requires T.Lawful(log) && H.Raises(log, i, k)
    requires FirstHole(before) == k && FirstHole(after) == k + 1 && Delivered(after) == log[..k + 1]
    ensures CaughtUp(Raised(log, i, k), before, after).halted
  {
    H.RaisedWriteHalts(log, i, k);
    assert T.DeliverRange(Raised(log, i, k), Delivered(after), k, k) == Raised(log, i, k);
  }

  lemma AnswersAndHalts(g: P.Group, t: Nodes, r: R.Replicas, p: nat, log: seq<Entry>, i: nat, k: nat)
    returns (u: Nodes, v: Nodes)
    requires T.Lawful(log) && H.Raises(log, i, k) && Reached(g, t)
    requires HasDelivered(t, p, log, k) && LogOf(t, p) == log[..k] && LearnedNext(g, t.paxos, r, p, log, k)
    ensures Reached(g, u) && Reached(g, v) && AnswerHalts(g, t, u, v, p, log, i, k)
  {
    u := AnswersRead(g, t, p, log, i, k);
    v := LearnsAndHalts(g, u, r, p, log, i, k);
  }

  // Node p can halt, with a log that is a prefix of this one.
  ghost predicate CanHalt(g: P.Group, p: nat, log: seq<Entry>) {
    exists s :: Reached(g, s) && p < |s.tablets| && p < |s.paxos.logs| && s.tablets[p].halted && LogOf(s, p) <= log
  }

  lemma NodeHaltsOnlyIf(g: P.Group, p: nat, log: seq<Entry>)
    requires Sound(g) && g.threshold > 0 && p < g.n && CanHalt(g, p, log)
    ensures H.CanGoWrong(log)
  {
    var s :| Reached(g, s) && p < |s.tablets| && p < |s.paxos.logs| && s.tablets[p].halted && LogOf(s, p) <= log;
    NodesFollowTheirLogs(g, s, p);
    var i: nat, k: nat :| H.Raises(LogOf(s, p), i, k);
    H.RaisesLonger(LogOf(s, p), log, i, k);
  }

  /** A Paxos node can halt on exactly the same logs as a replica over an agreed log. */
  lemma NodeHaltsIffEarlyReadRaises(g: P.Group, p: nat, log: seq<Entry>)
    requires Sound(g) && g.threshold <= g.n && p < g.n && T.Lawful(log)
    ensures CanHalt(g, p, log) <==> H.CanGoWrong(log)
  {
    if CanHalt(g, p, log) {
      NodeHaltsOnlyIf(g, p, log);
    }
    if H.CanGoWrong(log) {
      var i: nat, k: nat :| H.Raises(log, i, k);
      var t, u, v := AnswerCanHaltNode(g, p, (p + 1) % g.n, log, i, k);
      assert LogOf(v, p) <= log;
    }
  }

  // ----- Differing from the log -----

  // Node p can differ from the replay of its log, which is a prefix of this one.
  ghost predicate CanDiffer(g: P.Group, p: nat, log: seq<Entry>) {
    exists s :: Reached(g, s) && p < |s.tablets| && p < |s.paxos.logs| && LogOf(s, p) <= log
                && s.tablets[p] != T.Replay(LogOf(s, p))
  }

  lemma NodeDiffersOnlyIf(g: P.Group, p: nat, log: seq<Entry>)
    requires Sound(g) && g.threshold > 0 && p < g.n && CanDiffer(g, p, log)
    ensures H.CanDrift(log)
  {
    var s :| Reached(g, s) && p < |s.tablets| && p < |s.paxos.logs| && LogOf(s, p) <= log
             && s.tablets[p] != T.Replay(LogOf(s, p));
    NodesFollowTheirLogs(g, s, p);
    var i: nat, m: nat :| H.Drifts(LogOf(s, p), i, m);
    H.DriftsLonger(LogOf(s, p), log, i, m);
  }

  lemma AnswerDriftsNode(g: P.Group, p: nat, log: seq<Entry>, i: nat, m: nat) returns (u: Nodes)
    requires Sound(g) && g.threshold <= g.n && p < g.n && T.Lawful(log) && H.Drifts(log, i, m)
    ensures Reached(g, u) && p < |u.tablets| && p < |u.paxos.logs|
    ensures LogOf(u, p) == log[..m] && u.tablets[p] != T.Replay(log[..m])
  {
    var t, a := WriteAndSync(g, p, p, log, m);
    DeliversPrefix(g, t.paxos, a, p);
    u := AnswersRead(g, t, p, log, i, m);
    T.PrefixNeverHalts(log, m);
    T.HasVersionIffRead(T.Replay(log[..m]).store, log[i].key, log[i].timestamp);
  }

  /** A Paxos node can leave the replay of its log on exactly the same logs as a replica over an agreed log. */
  lemma NodeDiffersIffEarlyReadDrifts(g: P.Group, p: nat, log: seq<Entry>)
    requires Sound(g) && g.threshold <= g.n && p < g.n && T.Lawful(log)
    ensures CanDiffer(g, p, log) <==> H.CanDrift(log)
  {
    if CanDiffer(g, p, log) {
      NodeDiffersOnlyIf(g, p, log);
    }
    if H.CanDrift(log) {
      var i: nat, m: nat :| H.Drifts(log, i, m);
      var u := AnswerDriftsNode(g, p, log, i, m);
      assert LogOf(u, p) <= log;
    }
  }
}
