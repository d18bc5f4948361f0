/** What holds of masters and slave groups in every run. */
module KeySpaceSafety {
  import opened Wrappers
  import opened Entries
  import opened KeySpaceRanges
  import opened KeySpaceManagers
  import opened SlaveKeySpaceManagers
  import opened Handshake
  import A = AgreedLogs

  // ----- No callback's assertion fails -----

  /** Whatever prefix of its log a master or a slave has delivered, no assertion failed on the way. */
  lemma NoAssertionFails(groups: set<GroupId>, c: Cluster)
    requires Reached(groups, c)
    ensures c.slaves.Keys == groups
    ensures forall n: nat :: n <= |c.master.agreed| ==>
      MasterAt(groups, c.master.agreed, n).Some? && MasterAt(groups, c.master.agreed, n).value.Keys == groups
    ensures forall g, m: nat :: g in groups && m <= |c.slaves[g].agreed| ==> SlaveAt(c.slaves[g].agreed, m).Some?
  {
    ReachedHolds(groups, c);
    forall n: nat | n <= |c.master.agreed|
      ensures
        MasterAt(groups, c.master.agreed, n).Some? && MasterAt(groups, c.master.agreed, n).value.Keys == groups
    {
      assert Good(groups, c.master.agreed, n, Adopted(c.slaves));
    }
    forall g, m: nat | g in groups && m <= |c.slaves[g].agreed|
      ensures SlaveAt(c.slaves[g].agreed, m).Some?
    {
      SlaveIsAt(c.slaves[g], Selections(g, c.master.agreed), m);
    }
  }

  /** The state of group g at a master that has delivered n entries. */
  ghost predicate MasterHas(groups: set<GroupId>, c: Cluster, n: nat, g: GroupId, s: GroupState) {
    && n <= |c.master.agreed|
    && var state := MasterAt(groups, c.master.agreed, n);
      state.Some? && g in state.value && state.value[g] == s
  }

  /** The state of a replica of slave group g that has delivered m entries. */
  ghost predicate SlaveHas(c: Cluster, g: GroupId, m: nat, s: SlaveState) {
    g in c.slaves && m <= |c.slaves[g].agreed| && SlaveAt(c.slaves[g].agreed, m) == Some(s)
  }

  lemma MasterFacts(groups: set<GroupId>, c: Cluster, n: nat, g: GroupId, s: GroupState)
    requires Inv(groups, c) && MasterHas(groups, c, n, g, s)
    ensures g in groups && Good(groups, c.master.agreed, n, Adopted(c.slaves))
    ensures Fits(s, History(g, c.master.agreed, n), Adopted(c.slaves)[g])
    ensures History(g, c.master.agreed, n) <= Selections(g, c.master.agreed)
  {
    assert Good(groups, c.master.agreed, n, Adopted(c.slaves));
    SelectionsGrow(g, c.master.agreed, c.master.agreed, n);
  }

  lemma SlaveFacts(groups: set<GroupId>, c: Cluster, g: GroupId, m: nat, s: SlaveState)
    requires Inv(groups, c) && SlaveHas(c, g, m, s)
    ensures
      var h := Selections(g, c.master.agreed);
      g in groups && Growing(h) && m <= |h| && s == SlaveState(Last(h[..m]), m)
  {
    var n := |c.master.agreed|;
    assert Good(groups, c.master.agreed, n, Adopted(c.slaves));
    var state, hs := MasterAt(groups, c.master.agreed, n).value, HistoriesAt(groups, c.master.agreed, n);
    assert Fits(state[g], hs[g], Adopted(c.slaves)[g]);
    SlaveIsAt(c.slaves[g], Selections(g, c.master.agreed), m);
  }

  // ----- The handshake -----

  lemma LastOfPrefix(h: seq<seq<Range>>, h': seq<seq<Range>>)
    requires h <= h'
    ensures Last(h'[..|h|]) == Last(h)
  {
    assert h'[..|h|] == h;
  }

  /** A generation means the same ranges at every master and at every slave, however far each lags. */
  lemma EqualGenerationsEqualRanges(
    groups: set<GroupId>, c: Cluster, g: GroupId, n: nat, s: GroupState, m: nat, t: SlaveState)
    requires Reached(groups, c) && MasterHas(groups, c, n, g, s) && SlaveHas(c, g, m, t)
    requires s.generation == t.generation
    ensures CurrentRanges(s) == t.ranges
  {
    ReachedHolds(groups, c);
    MasterFacts(groups, c, n, g, s);
    SlaveFacts(groups, c, g, m, t);
    LastOfPrefix(History(g, c.master.agreed, n), Selections(g, c.master.agreed));
  }

  lemma LastGrows(h: seq<seq<Range>>, h': seq<seq<Range>>)
    requires Growing(h') && h <= h'
    ensures Last(h) <= Last(h')
  {
    if h != [] && |h| < |h'| {
      assert Continues(h', |h| - 1, |h'| - 1);
    }
  }

  lemma MastersAgreeOnGenerations(
    groups: set<GroupId>, c: Cluster, g: GroupId, n: nat, s: GroupState, n': nat, s': GroupState)
    requires Reached(groups, c) && MasterHas(groups, c, n, g, s) && MasterHas(groups, c, n', g, s')
    requires s.generation <= s'.generation
    ensures CurrentRanges(s) <= CurrentRanges(s')
  {
    ReachedHolds(groups, c);
    MasterFacts(groups, c, n, g, s);
    MasterFacts(groups, c, n', g, s');
    LastGrows(History(g, c.master.agreed, n), History(g, c.master.agreed, n'));
  }

  /** The masters run at most one generation ahead, and not at all of a group in the steady state. */
  lemma MastersAreBarelyAhead(groups: set<GroupId>, c: Cluster, g: GroupId, n: nat, s: GroupState)
    requires Reached(groups, c) && MasterHas(groups, c, n, g, s)
    ensures g in c.slaves && s.generation <= |c.slaves[g].agreed| + if s.KeySpace? then 0 else 1
  {
    ReachedHolds(groups, c);
    MasterFacts(groups, c, n, g, s);
  }

  /** Every generation that the log holds from position x on covers the key. */
  ghost predicate CoveredFrom(log: seq<Entry>, x: nat, key: Key) {
    x < |log| && forall k :: x <= k < |log| ==> log[k].Changed? && Covers(log[k].newRanges, key)
  }

  lemma LongerCovers(rs: seq<Range>, qs: seq<Range>, key: Key)
    requires rs <= qs && Covers(rs, key)
    ensures Covers(qs, key)
  {
    var i :| 0 <= i < |rs| && Within(rs[i], key);
    assert Within(qs[i], key);
  }

  lemma AdoptedStaysCovered(groups: set<GroupId>, c: Cluster, g: GroupId, key: Key)
    requires Inv(groups, c) && g in groups && AdoptedCovers(c.slaves[g].agreed, key)
    ensures exists x :: CoveredFrom(c.slaves[g].agreed, x, key)
  {
    var log, h := c.slaves[g], Selections(g, c.master.agreed);
    var x :| 0 <= x < |log.agreed| && log.agreed[x].Changed? && Covers(log.agreed[x].newRanges, key);
    SlaveIsAt(log, h, 0);
    SlaveFacts(groups, c, g, 0, INIT_SLAVE);
    SlaveAdopts(log, h, x);
    forall k | x <= k < |log.agreed|
      ensures log.agreed[k].Changed? && Covers(log.agreed[k].newRanges, key)
    {
      SlaveAdopts(log, h, k);
      assert Continues(h, x, k);
      LongerCovers(h[x], h[k], key);
    }
    assert CoveredFrom(log.agreed, x, key);
  }

  /**
   When any master, even one that lags, has told a client that a group serves a key, the group's
   log holds a generation covering the key, and so does each generation after it.
   */
  lemma HandshakeSafety(groups: set<GroupId>, c: Cluster, a: Answered)
    requires Reached(groups, c) && a in c.answers
    ensures a.group in c.slaves && exists x :: CoveredFrom(c.slaves[a.group].agreed, x, a.key)
  {
    ReachedHolds(groups, c);
    AdoptedStaysCovered(groups, c, a.group, a.key);
  }

  /** The same, of what a master is ready to answer: its own steady state is enough. */
  lemma SteadyMeansAdopted(groups: set<GroupId>, c: Cluster, g: GroupId, n: nat, s: GroupState, key: Key)
    requires Reached(groups, c) && MasterHas(groups, c, n, g, s) && s.KeySpace? && Covers(s.ranges, key)
    ensures g in c.slaves && exists x :: CoveredFrom(c.slaves[g].agreed, x, key)
  {
    ReachedHolds(groups, c);
    MasterFacts(groups, c, n, g, s);
    assert InvSlave(c.slaves[g], Selections(g, c.master.agreed));
    SteadyIsAdopted(groups, c.master.agreed, n, Adopted(c.slaves), g, c.slaves[g], key);
    AdoptedStaysCovered(groups, c, g, key);
  }

  // ----- The partition of the key space -----

  /** A group has as many ranges as its generation says, each of them a whole table. */
  lemma GenerationCountsRanges(groups: set<GroupId>, c: Cluster, g: GroupId, n: nat, s: GroupState)
    requires Reached(groups, c) && MasterHas(groups, c, n, g, s)
    ensures |CurrentRanges(s)| == s.generation
    ensures forall i :: 0 <= i < |CurrentRanges(s)| ==> IsWholeTable(CurrentRanges(s)[i])
    ensures s.NewKeySpace? ==> |s.ranges| + 1 == |s.newRanges| && s.ranges <= s.newRanges
  {
    ReachedHolds(groups, c);
    MasterFacts(groups, c, n, g, s);
    var h := History(g, c.master.agreed, n);
    forall i | 0 <= i < |CurrentRanges(s)|
      ensures IsWholeTable(CurrentRanges(s)[i])
    {
      LastIsWhole(h, i);
    }
    LastCounts(h);
    if |h| > 1 {
      assert AddsTable(h, |h| - 2) && Continues(h, |h| - 2, |h| - 1);
    }
  }

  /** No key lies in two ranges, whether of one group or of two. */
  lemma RangePartition(
    groups: set<GroupId>, c: Cluster, n: nat, g: GroupId, s: GroupState, h: GroupId, t: GroupState,
    i: nat, j: nat, key: Key)
    requires Reached(groups, c) && MasterHas(groups, c, n, g, s) && MasterHas(groups, c, n, h, t)
    requires i < |CurrentRanges(s)| && Within(CurrentRanges(s)[i], key)
    requires j < |CurrentRanges(t)| && Within(CurrentRanges(t)[j], key)
    ensures g == h && i == j
  {
    ReachedHolds(groups, c);
    MasterFacts(groups, c, n, g, s);
    MasterFacts(groups, c, n, h, t);
    var hs := HistoriesAt(groups, c.master.agreed, n);
    assert Clash(Last(hs[g]), i, Last(hs[h]), j);
  }

  /** A find-key task finds the same, in whichever order the groups are iterated. */
  lemma FindKeyIgnoresOrder(
    groups: set<GroupId>, c: Cluster, n: nat, state: MasterState, order: seq<GroupId>, order': seq<GroupId>, key: Key)
    requires Reached(groups, c) && n <= |c.master.agreed| && MasterAt(groups, c.master.agreed, n) == Some(state)
    requires forall g :: g in order <==> g in state
    requires forall g :: g in order' <==> g in state
    ensures Search(state, order, key) == Search(state, order', key)
  {
    forall g, h |
      g in order && h in order && Covers(CurrentRanges(state[g]), key) && Covers(CurrentRanges(state[h]), key)
      ensures g == h
    {
      var i :| 0 <= i < |CurrentRanges(state[g])| && Within(CurrentRanges(state[g])[i], key);
      var j :| 0 <= j < |CurrentRanges(state[h])| && Within(CurrentRanges(state[h])[j], key);
      RangePartition(groups, c, n, g, state[g], h, state[h], i, j, key);
    }
    SearchIgnoresOrder(state, order, order', key);
  }

  // ----- Routing to tablets -----

  /** The tablets of a replica that has delivered n entries. */
  function TabletsAt(entries: seq<Entry>, n: nat): set<Range>
    requires n <= |entries|
  {
    if n == 0 then {}
    else TabletsAt(entries, n - 1) + if entries[n - 1].Changed? then Elements(entries[n - 1].newRanges) else {}
  }

  /** Tablets are only ever added, yet there is exactly one for each range of the latest generation. */
  lemma {:induction false} TabletsAreLatestRanges(log: A.AgreedLog, h: seq<seq<Range>>, n: nat)
    requires InvSlave(log, h) && Growing(h) && n <= |log.agreed|
    ensures n <= |h| && TabletsAt(log.agreed, n) == Elements(Last(h[..n]))
  {
    if n > 0 {
      TabletsAreLatestRanges(log, h, n - 1);
      SlaveAdopts(log, h, n - 1);
      GrowingPrefix(h, n);
      LastGrows(h[..n - 1], h[..n]);
    }
  }

  /** All the ranges of a growing history's latest generation are whole tables. */
  lemma PrefixIsWhole(h: seq<seq<Range>>, m: nat, r: Range)
    requires Growing(h) && m <= |h| && r in Last(h[..m])
    ensures IsWholeTable(r)
  {
    var i :| 0 <= i < |Last(h[..m])| && Last(h[..m])[i] == r;
    GrowingPrefix(h, m);
    LastIsWhole(h[..m], i);
  }

  /**
   A slave replica routes a request to the one tablet that holds the key's whole table, in whichever
   order its tablets are iterated, exactly when its own latest generation covers the key.
   */
  lemma RoutingIsDetermined(
    groups: set<GroupId>, c: Cluster, g: GroupId, m: nat, t: SlaveState, order: seq<Range>, key: Key)
    requires Reached(groups, c) && SlaveHas(c, g, m, t)
    requires forall r :: r in order <==> r in TabletsAt(c.slaves[g].agreed, m)
    ensures RouteIn(order, key) == if Covers(t.ranges, key) then Some(WholeTable(key)) else None
  {
    ReachedHolds(groups, c);
    SlaveFacts(groups, c, g, m, t);
    var h := Selections(g, c.master.agreed);
    TabletsAreLatestRanges(c.slaves[g], h, m);
    RouteFinds(order, key);
    if RouteIn(order, key).Some? {
      var r := RouteIn(order, key).value;
      PrefixIsWhole(h, m, r);
      var i :| 0 <= i < |t.ranges| && t.ranges[i] == r;
      assert Covers(t.ranges, key);
    } else {
      assert forall i :: 0 <= i < |t.ranges| ==> t.ranges[i] in order;
    }
  }

  lemma AdoptedKeyIsSelected(groups: set<GroupId>, c: Cluster, g: GroupId, m: nat, t: SlaveState, key: Key)
    requires Inv(groups, c) && SlaveHas(c, g, m, t) && Covers(t.ranges, key)
    ensures g in groups
    ensures Covers(Last(Selections(g, c.master.agreed)), key)
  {
    SlaveFacts(groups, c, g, m, t);
    var h := Selections(g, c.master.agreed);
    LastGrows(h[..m], h);
    LongerCovers(t.ranges, Last(h), key);
  }

  lemma DisjointServes(hs: Histories, g: GroupId, h: GroupId, key: Key)
    requires Disjoint(hs) && g in hs && h in hs
    requires Covers(Last(hs[g]), key) && Covers(Last(hs[h]), key)
    ensures g == h
  {
    var i: nat :| i < |Last(hs[g])| && Within(Last(hs[g])[i], key);
    var j: nat :| j < |Last(hs[h])| && Within(Last(hs[h])[j], key);
    assert Clash(Last(hs[g]), i, Last(hs[h]), j);
  }

  /** Replicas of two groups never both serve a key, however far each of them lags. */
  lemma OneGroupServes(
    groups: set<GroupId>, c: Cluster, g: GroupId, m: nat, s: SlaveState, h: GroupId, k: nat, t: SlaveState, key: Key)
    requires Reached(groups, c) && SlaveHas(c, g, m, s) && SlaveHas(c, h, k, t)
    requires Covers(s.ranges, key) && Covers(t.ranges, key)
    ensures g == h
  {
    ReachedHolds(groups, c);
    AdoptedKeyIsSelected(groups, c, g, m, s, key);
    AdoptedKeyIsSelected(groups, c, h, k, t, key);
    var n := |c.master.agreed|;
    assert Good(groups, c.master.agreed, n, Adopted(c.slaves));
    DisjointServes(HistoriesAt(groups, c.master.agreed, n), g, h, key);
  }

  /** A replica that has delivered all its group had adopted routes every key answered for the group. */
  lemma AnsweredKeysAreRouted(groups: set<GroupId>, c: Cluster, a: Answered, t: SlaveState, order: seq<Range>)
    requires Reached(groups, c) && a in c.answers
    requires a.group in c.slaves && SlaveHas(c, a.group, |c.slaves[a.group].agreed|, t)
    requires forall r :: r in order <==> r in TabletsAt(c.slaves[a.group].agreed, |c.slaves[a.group].agreed|)
    ensures RouteIn(order, a.key) == Some(WholeTable(a.key))
  {
    HandshakeSafety(groups, c, a);
    ReachedHolds(groups, c);
    var log := c.slaves[a.group].agreed;
    var x :| CoveredFrom(log, x, a.key);
    SlaveFacts(groups, c, a.group, |log|, t);
    SlaveAdopts(c.slaves[a.group], Selections(a.group, c.master.agreed), |log| - 1);
    assert Covers(log[|log| - 1].newRanges, a.key);
    RoutingIsDetermined(groups, c, a.group, |log|, t, order, a.key);
  }
}
