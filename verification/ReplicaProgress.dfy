/**
 How a replica that lags catches up, by syncing or by proposing again what was agreed on, and when
 it can go on to write new entries.
*/
module ReplicaProgress {
  import opened Paths
  import opened Entries
  import opened PaxosNode
  import opened PaxosProtocol
  import opened PaxosInvariant
  import opened PaxosAgreement
  import opened PaxosProgress
  import opened PaxosLogs
  import opened FiniteSets
  import opened LogSyncer
  import opened ReplicaRuns
  import R = ReplicatedLog
  import A = AgreedLogs

  // ----- Whoever has learned at an index has filled it -----

  ghost predicate LearnedAt(g: Group, r: R.Replicas, l: nat, i: nat) {
    l < |R.InstanceAt(g, r, i).nodes| && R.InstanceAt(g, r, i).nodes[l].learned
  }

  ghost predicate LearnedIsFilled(g: Group, r: R.Replicas) {
    forall l: nat, i: nat {:trigger LearnedAt(g, r, l, i)} :: l < |r.logs| && LearnedAt(g, r, l, i) ==> i in r.logs[l]
  }

  lemma InitLearned(g: Group)
    ensures LearnedIsFilled(g, R.InitReplicas(g))
  {
  }

  lemma ReceivedLearns(g: Group, s: System, env: Envelope)
    requires env.dst < |s.nodes| && Received(g, s, env).node.learned
    ensures s.nodes[env.dst].learned || Received(g, s, env).wrote.Some?
  {
  }

  lemma DeliveringKeepsLearned(g: Group, r: R.Replicas, r': R.Replicas, i: nat, env: Envelope)
    requires LearnedIsFilled(g, r) && R.Delivering(g, r, r', i, env)
    ensures LearnedIsFilled(g, r')
  {
    var s := R.InstanceAt(g, r, i);
    forall l: nat, j: nat | l < |r'.logs| && LearnedAt(g, r', l, j)
      ensures j in r'.logs[l]
    {
      assert LearnedAt(g, r, l, j) ==> j in r.logs[l];
      if j == i && l == env.dst {
        ReceivedLearns(g, s, env);
      }
    }
  }

  lemma ProposerLearnsNothing(g: Group, s: System, p: nat, number: nat, e: Entry)
    requires p < |s.nodes|
    ensures |AfterPropose(g, s, p, number, e).nodes| == |s.nodes|
    ensures forall l :: 0 <= l < |s.nodes| ==>
      AfterPropose(g, s, p, number, e).nodes[l].learned == s.nodes[l].learned
  {
  }

  lemma ProposingKeepsLearned(g: Group, r: R.Replicas, r': R.Replicas, p: nat, number: nat, e: Entry)
    requires LearnedIsFilled(g, r) && R.Proposing(g, r, r', p, number, e)
    ensures LearnedIsFilled(g, r')
  {
    ProposerLearnsNothing(g, R.InstanceAt(g, r, FirstHole(r.logs[p])), p, number, e);
    forall l: nat, j: nat | l < |r'.logs| && LearnedAt(g, r', l, j)
      ensures j in r'.logs[l]
    {
      assert LearnedAt(g, r, l, j);
    }
  }

  lemma LosingKeepsLearned(g: Group, r: R.Replicas, r': R.Replicas, i: nat, env: Envelope)
    requires LearnedIsFilled(g, r) && R.Losing(g, r, r', i, env)
    ensures LearnedIsFilled(g, r')
  {
    forall l: nat, j: nat | l < |r'.logs| && LearnedAt(g, r', l, j)
      ensures j in r'.logs[l]
    {
      assert LearnedAt(g, r, l, j);
    }
  }

  lemma SyncingKeepsLearned(g: Group, r: R.Replicas, r': R.Replicas)
    requires LearnedIsFilled(g, r) && r'.instances == r.instances && |r'.logs| == |r.logs|
    requires forall l :: 0 <= l < |r.logs| ==> r.logs[l].Keys <= r'.logs[l].Keys
    ensures LearnedIsFilled(g, r')
  {
    forall l: nat, j: nat | l < |r'.logs| && LearnedAt(g, r', l, j)
      ensures j in r'.logs[l]
    {
      assert LearnedAt(g, r, l, j) && j in r.logs[l].Keys;
    }
  }

  lemma WorkingKeepsLearned(g: Group, r: R.Replicas, r': R.Replicas, p: nat)
    requires LearnedIsFilled(g, r) && R.Working(g, r, r', p)
    ensures LearnedIsFilled(g, r')
  {
    if i, env :| R.Delivering(g, r, r', i, env) && env.dst == p {
      DeliveringKeepsLearned(g, r, r', i, env);
    } else if request :| R.Replying(r, r', p, request) {
      SyncingKeepsLearned(g, r, r');
    } else {
      var reply :| R.Merging(r, r', p, reply);
      MergeKeepsAndAdds(r.logs[p], reply);
      SyncingKeepsLearned(g, r, r');
    }
  }

  // ----- Who can go on -----

  /** No replica has delivered index i, and replica p lacks it. */
  ghost predicate Missing(r: R.Replicas, p: nat, i: nat) {
    p < |r.logs| && i !in r.logs[p] && forall q :: 0 <= q < |r.logs| ==> FirstHole(r.logs[q]) <= i
  }

  /** Replica p can finish a round at every index that it lacks and cannot get from another's delivered entries. */
  ghost predicate Able(g: Group, r: R.Replicas, p: nat) {
    p < |r.logs| && forall i: nat {:trigger Opens(g, r, p, i)} :: Missing(r, p, i) ==> Opens(g, r, p, i)
  }

  ghost predicate BelowLast(s: System) {
    forall a :: 0 <= a < |s.nodes| ==> s.nodes[a].rnd < LAST_NUMBER
  }

  /** Instance i is open to everyone as long as nobody has promised the last number in it. */
  lemma OpenBeforeLastNumber(g: Group, r: R.Replicas, p: nat, i: nat)
    requires Sound(g) && g.threshold <= g.n && g.numbers.DrawnNumber? && R.InvReplicas(g, r) && p < g.n
    requires BelowLast(R.InstanceAt(g, r, i))
    ensures Opens(g, r, p, i)
  {
    var s := R.InstanceAt(g, r, i);
    R.SaneHolds(g, r, i);
    ReachableIsSmall(g, s);
    assert Room(s, LAST_NUMBER) == Below(g.n);
    HeldAndRoom(g, s, p, LAST_NUMBER);
  }

  /** Nobody has promised the last number in any instance. */
  ghost predicate LastUnused(g: Group, r: R.Replicas) {
    forall i: nat {:trigger BelowLast(R.InstanceAt(g, r, i))} :: BelowLast(R.InstanceAt(g, r, i))
  }

  lemma UnusedIsAble(g: Group, r: R.Replicas, p: nat)
    requires Sound(g) && g.threshold <= g.n && g.numbers.DrawnNumber? && R.InvReplicas(g, r) && p < g.n
    requires LastUnused(g, r)
    ensures Able(g, r, p)
  {
    forall i: nat | Missing(r, p, i)
      ensures Opens(g, r, p, i)
    {
      assert BelowLast(R.InstanceAt(g, r, i));
      OpenBeforeLastNumber(g, r, p, i);
    }
  }

  /** Replica p's log has grown, and if an instance moved on then p has filled its index. */
  ghost predicate Gained(g: Group, r: R.Replicas, r': R.Replicas, p: nat) {
    && p < |r.logs| == |r'.logs| && r'.logs == r.logs[p := r'.logs[p]] && r.logs[p].Keys <= r'.logs[p].Keys
    && forall i: nat :: i !in r'.logs[p] ==> R.InstanceAt(g, r', i) == R.InstanceAt(g, r, i)
  }

  lemma AbleStays(g: Group, r: R.Replicas, r': R.Replicas, p: nat)
    requires Able(g, r, p) && Gained(g, r, r', p)
    ensures Able(g, r', p) && FirstHole(r.logs[p]) <= FirstHole(r'.logs[p])
  {
    assert forall k :: 0 <= k < FirstHole(r.logs[p]) ==> k in r.logs[p].Keys;
    assert FirstHole(r.logs[p]) <= FirstHole(r'.logs[p]);
    forall i: nat | Missing(r', p, i)
      ensures Opens(g, r', p, i)
    {
      assert i !in r.logs[p].Keys;
      forall q | 0 <= q < |r.logs|
        ensures FirstHole(r.logs[q]) <= i
      {
        assert FirstHole(r'.logs[q]) <= i;
      }
      assert Missing(r, p, i) && Opens(g, r, p, i);
    }
  }

  // ----- Syncing -----

  const FIRST_REQUEST := SyncRequest([IndexRun(0, 0)], 0)

  /** A replica that asks for everything is sent all that the other has delivered. */
  lemma SyncsFrom(mine: Log, theirs: Log)
    ensures FirstHole(theirs) <= FirstHole(Merged(mine, Response(theirs, FIRST_REQUEST)))
  {
    assert Expand([]) == [];
    ExpandAppend([], IndexRun(0, 0));
    assert [] + [IndexRun(0, 0)] == FIRST_REQUEST.missing && From(0, 0) == [0];
    CatchUp(map[], [0], FIRST_REQUEST, theirs, mine);
  }

  /** Replica q sends all that it has delivered, and p merges it. */
  lemma SyncReplicas(g: Group, r: R.Replicas, a: A.AgreedLog, q: nat, p: nat) returns (m: R.Replicas, r': R.Replicas)
    requires Sound(g) && R.Simulates(g, r, a) && q < g.n && p < g.n
    ensures m.logs == r.logs && R.Working(g, r, m, q) && R.Working(g, m, r', p) && Gained(g, r, r', p)
    ensures FirstHole(r.logs[q]) <= FirstHole(r'.logs[p])
    ensures R.Simulates(g, r', a.(seen := a.seen[p := FirstHole(r'.logs[p])]))
  {
    var reply := Response(r.logs[q], FIRST_REQUEST);
    m := r.(replies := r.replies + {reply});
    assert R.Replying(r, m, q, FIRST_REQUEST);
    R.ReplyRefines(g, r, m, a, q, FIRST_REQUEST);
    r' := m.(logs := m.logs[p := Merged(m.logs[p], reply)]);
    assert R.Merging(m, r', p, reply);
    MergeKeepsAndAdds(m.logs[p], reply);
    SyncsFrom(m.logs[p], r.logs[q]);
    var a' := R.MergeRefines(g, m, r', a, p, reply);
  }

  // ----- Learning what was agreed on -----

  lemma NothingElseIsChosen(g: Group, r: R.Replicas, a: A.AgreedLog, i: nat, s': System)
    requires Sound(g) && R.Simulates(g, r, a) && i < |a.agreed|
    requires Reachable(g, s') && R.InstanceAt(g, r, i).sent <= s'.sent
    ensures Chosen(g, s', a.agreed[i]) && forall v :: Chosen(g, s', v) ==> v == a.agreed[i]
  {
    assert R.ChosenAt(g, r, i, a.agreed[i]);
    ChosenStays(g, R.InstanceAt(g, r, i), s', a.agreed[i]);
    ReachableHolds(g, s');
    forall v | Chosen(g, s', v)
      ensures v == a.agreed[i]
    {
      ChosenIsUnique(g, s', v, a.agreed[i]);
    }
  }

  lemma InstanceMovesOn(g: Group, r: R.Replicas, a: A.AgreedLog, i: nat, s': System)
    requires Sound(g) && R.Simulates(g, r, a) && i < |a.agreed| && Reachable(g, s')
    requires R.InstanceAt(g, r, i).sent <= s'.sent && s'.proposed == R.InstanceAt(g, r, i).proposed
    ensures R.Simulates(g, WithInstance(r, i, s'), a) && R.ChosenAt(g, WithInstance(r, i, s'), i, a.agreed[i])
  {
    var m := WithInstance(r, i, s');
    NothingElseIsChosen(g, r, a, i, s');
    R.ReplacedKeeps(g, r, m, i, s');
    R.ChosenAtStays(g, r, m, i, s');
    assert R.ChosenAt(g, r, i, a.agreed[i]);
    R.RefinesStays(g, r, m, a);
  }

  /** Replica p proposes what was agreed on for the first index that it lacks, and learns it. */
  lemma Relearn(g: Group, r: R.Replicas, a: A.AgreedLog, p: nat) returns (m: R.Replicas, r': R.Replicas)
    requires Sound(g) && R.Simulates(g, r, a) && LearnedIsFilled(g, r) && p < g.n
    requires FirstHole(r.logs[p]) < |a.agreed| && Opens(g, r, p, FirstHole(r.logs[p]))
    ensures Leads(SoloMoves(g, p, a.agreed[FirstHole(r.logs[p])]), r, m) && m.logs == r.logs
    ensures R.Working(g, m, r', p) && Gained(g, r, r', p)
    ensures FirstHole(r.logs[p]) < FirstHole(r'.logs[p])
    ensures R.Simulates(g, r', a.(seen := a.seen[p := FirstHole(r'.logs[p])]))
  {
    var i := FirstHole(r.logs[p]);
    var e := a.agreed[i];
    R.SaneHolds(g, r, i);
    assert !LearnedAt(g, r, p, i);
    var s', w;
    m, s', w := RoundMoves(g, r, p, e, p);
    NothingElseIsChosen(g, r, a, i, s');
    r' := Written(r, i, s', p, e);
    RelearnGains(g, r, p, s', e);
    RelearnIsSimulated(g, r, a, p, s');
  }

  lemma RelearnGains(g: Group, r: R.Replicas, p: nat, s': System, e: Entry)
    requires p < |r.logs|
    ensures
      var i := FirstHole(r.logs[p]);
      var r' := Written(r, i, s', p, e);
      Gained(g, r, r', p) && i < FirstHole(r'.logs[p])
  {
    var i := FirstHole(r.logs[p]);
    var log' := Filled(r.logs[p], i, e);
    assert forall k :: 0 <= k <= i ==> k in log';
    assert FirstHole(log') !in log';
  }

  lemma RelearnIsSimulated(g: Group, r: R.Replicas, a: A.AgreedLog, p: nat, s': System)
    requires Sound(g) && R.Simulates(g, r, a) && p < g.n && FirstHole(r.logs[p]) < |a.agreed|
    requires
      var i := FirstHole(r.logs[p]);
      && Reachable(g, s') && R.InstanceAt(g, r, i).sent <= s'.sent
      && s'.proposed == R.InstanceAt(g, r, i).proposed + {a.agreed[i]}
    ensures
      var r' := Written(r, FirstHole(r.logs[p]), s', p, a.agreed[FirstHole(r.logs[p])]);
      R.Simulates(g, r', a.(seen := a.seen[p := FirstHole(r'.logs[p])]))
  {
    var i := FirstHole(r.logs[p]);
    var e := a.agreed[i];
    assert A.Offer(i, e) in a.offers;
    InstanceMovesOn(g, r, a, i, s');
    var a' := R.WriteRefines(g, WithInstance(r, i, s'), Written(r, i, s', p, e), a, i, p, e);
  }

  // ----- What an able replica can do -----

  lemma AbleAtHole(g: Group, r: R.Replicas, p: nat)
    requires Able(g, r, p) && forall q :: 0 <= q < |r.logs| ==> FirstHole(r.logs[q]) <= FirstHole(r.logs[p])
    ensures Opens(g, r, p, FirstHole(r.logs[p]))
  {
    assert Missing(r, p, FirstHole(r.logs[p]));
  }

  /** A replica that lags delivers more: from another that is further, or by learning again. */
  lemma CatchUpSome(g: Group, r: R.Replicas, a: A.AgreedLog, p: nat) returns (m: R.Replicas, r': R.Replicas)
    requires Sound(g) && R.Simulates(g, r, a) && LearnedIsFilled(g, r) && Able(g, r, p)
    requires FirstHole(r.logs[p]) < |a.agreed|
    ensures Leads(SoloMoves(g, p, a.agreed[FirstHole(r.logs[p])]), r, m) && m.logs == r.logs
    ensures R.Working(g, m, r', p) && Gained(g, r, r', p)
    ensures FirstHole(r.logs[p]) < FirstHole(r'.logs[p])
    ensures R.Simulates(g, r', a.(seen := a.seen[p := FirstHole(r'.logs[p])]))
  {
    if q: nat :| q < |r.logs| && FirstHole(r.logs[p]) < FirstHole(r.logs[q]) {
      m, r' := SyncReplicas(g, r, a, q, p);
      var moves := SoloMoves(g, p, a.agreed[FirstHole(r.logs[p])]);
      assert Idles(g, r, m);
      LeadsToItself(moves, r);
      LeadsOn(moves, r, r, m);
    } else {
      AbleAtHole(g, r, p);
      m, r' := Relearn(g, r, a, p);
    }
  }

  lemma NobodyIsFurther(g: Group, r: R.Replicas, a: A.AgreedLog, p: nat)
    requires R.Simulates(g, r, a) && p < g.n && FirstHole(r.logs[p]) == |a.agreed|
    ensures forall q :: 0 <= q < |r.logs| ==> FirstHole(r.logs[q]) <= FirstHole(r.logs[p])
  {
    forall q | 0 <= q < |r.logs|
      ensures FirstHole(r.logs[q]) <= |a.agreed|
    {
      assert a.seen[q] == FirstHole(r.logs[q]);
    }
  }

  lemma RoundGains(g: Group, r: R.Replicas, r': R.Replicas, p: nat, i: nat, w: Entry)
    requires p < |r.logs| && r'.logs == r.logs[p := Filled(r.logs[p], i, w)]
    requires r'.instances == r.instances[i := R.InstanceAt(g, r', i)]
    ensures Gained(g, r, r', p)
  {
  }

  /** A replica that does not lag writes: what it proposes, or what was on offer before. */
  lemma WriteSome(g: Group, r: R.Replicas, a: A.AgreedLog, p: nat, e: Entry)
    returns (m: R.Replicas, r': R.Replicas, w: Entry)
    requires Sound(g) && R.Simulates(g, r, a) && Able(g, r, p) && FirstHole(r.logs[p]) == |a.agreed|
    ensures Leads(SoloMoves(g, p, e), r, m) && m.logs == r.logs && R.Working(g, m, r', p) && Gained(g, r, r', p)
    ensures w == e || A.Offer(|a.agreed|, w) in a.offers
    ensures R.Simulates(g, r', A.AfterRound(a, e, w, p, |a.agreed| + 1))
  {
    NobodyIsFurther(g, r, a, p);
    AbleAtHole(g, r, p);
    m, r', w := ReplicaRound(g, r, a, p, e, p);
    RoundGains(g, r, r', p, |a.agreed|, w);
  }
}
