/**
 When answering READs can make a replica halt. The answer to a READ whose key did not exist at its
 index can raise the key's last access at one replica only. The agreed log alone decides whether
 that can go wrong.
*/
module TabletHalting {
  import opened Wrappers
  import opened Paths
  import opened Entries
  import opened KVStores
  import opened ClientRequests
  import opened Tablet
  import A = AgreedLogs

  // ----- The condition on the log -----

  /** The READ at index i came before its key existed. */
  ghost predicate EarlyRead(log: seq<Entry>, i: nat) {
    i < |log| && log[i].Read? && log[i].key !in Replay(log[..i]).store
  }

  /** The READ at index i, answered late, stands in the way of the write at index k. */
  ghost predicate Raises(log: seq<Entry>, i: nat, k: nat) {
    && i < k < |log| && EarlyRead(log, i)
    && log[k].Write? && log[k].key == log[i].key && log[k].key in Replay(log[..k]).store
    && log[k].timestamp <= log[i].timestamp
  }

  ghost predicate CanGoWrong(log: seq<Entry>) {
    exists i: nat, k: nat :: Raises(log, i, k)
  }

  ghost predicate NoneHalted(t: TabletGroup) {
    forall p :: 0 <= p < |t.replicas| ==> !t.replicas[p].halted
  }

  lemma RaisesLonger(log: seq<Entry>, longer: seq<Entry>, i: nat, k: nat)
    requires log <= longer && k < |log|
    ensures Raises(log, i, k) <==> Raises(longer, i, k)
  {
    assert longer[..k] == log[..k];
    if i < k {
      assert longer[..i] == log[..i];
    }
  }

  // ----- A halted replica delivered such a pair -----

  datatype KeyTime = KeyTime(key: string, timestamp: nat)

  ghost function EarlyReads(log: seq<Entry>): set<KeyTime> {
    set i | 0 <= i < |log| && EarlyRead(log, i) :: KeyTime(log[i].key, log[i].timestamp)
  }

  lemma EarlyReadsGrow(log: seq<Entry>, longer: seq<Entry>)
    requires log <= longer
    ensures EarlyReads(log) <= EarlyReads(longer)
  {
    forall i | 0 <= i < |log| && EarlyRead(log, i)
      ensures KeyTime(log[i].key, log[i].timestamp) in EarlyReads(longer)
    {
      assert longer[..i] == log[..i];
      assert EarlyRead(longer, i);
    }
  }

  /** Each last access is that of the replayed store, or the time of an early READ of the key. */
  ghost predicate Explained(store: Store, replayed: Store, early: set<KeyTime>) {
    forall key :: key in store && key in replayed ==>
      store[key].lat == replayed[key].lat || KeyTime(key, store[key].lat) in early
  }

  lemma EntryExplained(r: Replica, replayed: Replica, index: nat, e: Entry, early: set<KeyTime>)
    requires Follows(r, replayed) && !r.halted && !replayed.halted && IsRequest(e)
    requires Explained(r.store, replayed.store, early)
    requires e.Write? ==> CanWrite(replayed.store, e.key, e.timestamp)
    ensures OnEntry(r, index, e).halted ==>
      e.Write? && e.key in replayed.store && e.key in r.store
      && KeyTime(e.key, r.store[e.key].lat) in early && e.timestamp <= r.store[e.key].lat
    ensures !OnEntry(r, index, e).halted ==>
      Explained(OnEntry(r, index, e).store, OnEntry(replayed, index, e).store, early)
  {
  }

  ghost predicate ExplainedAt(r: Replica, prefix: seq<Entry>) {
    if r.halted then CanGoWrong(prefix)
    else Follows(r, Replay(prefix)) && Explained(r.store, Replay(prefix).store, EarlyReads(prefix))
  }

  lemma HaltIsExplained(r: Replica, log: seq<Entry>, n: nat)
    requires Lawful(log) && n < |log| && !r.halted && ExplainedAt(r, log[..n]) && OnEntry(r, n, log[n]).halted
    ensures CanGoWrong(log[..n + 1])
  {
    assert MayPropose(log[..n], log[n]);
    PrefixNeverHalts(log, n);
    EntryExplained(r, Replay(log[..n]), n, log[n], EarlyReads(log[..n]));
    var prefix, longer := log[..n], log[..n + 1];
    var lat := r.store[log[n].key].lat;
    var i: nat :| i < n && EarlyRead(prefix, i) && prefix[i].key == log[n].key && prefix[i].timestamp == lat;
    assert longer[..i] == prefix[..i] && longer[..n] == prefix;
    assert Raises(longer, i, n);
  }

  lemma NextEntryExplained(r: Replica, log: seq<Entry>, n: nat)
    requires Lawful(log) && n < |log| && !r.halted && ExplainedAt(r, log[..n])
    ensures ExplainedAt(OnEntry(r, n, log[n]), log[..n + 1])
  {
    if OnEntry(r, n, log[n]).halted {
      HaltIsExplained(r, log, n);
    } else {
      assert MayPropose(log[..n], log[n]);
      PrefixNeverHalts(log, n);
      EntryExplained(r, Replay(log[..n]), n, log[n], EarlyReads(log[..n]));
      NextEntryFollows(r, log, n);
      ReplayNext(log, n);
      EarlyReadsGrow(log[..n], log[..n + 1]);
    }
  }

  lemma {:induction false} RangeExplained(r: Replica, log: seq<Entry>, lo: nat, hi: nat)
    requires Lawful(log) && lo <= hi <= |log| && !r.halted && ExplainedAt(r, log[..lo])
    ensures ExplainedAt(DeliverRange(r, log, lo, hi), log[..hi])
    decreases hi
  {
    if lo < hi {
      RangeExplained(r, log, lo, hi - 1);
      var m := DeliverRange(r, log, lo, hi - 1);
      if m.halted {
        var i: nat, k: nat :| Raises(log[..hi - 1], i, k);
        RaisesLonger(log[..hi - 1], log[..hi], i, k);
      } else {
        NextEntryExplained(m, log, hi - 1);
      }
    }
  }

  ghost predicate AllExplained(t: TabletGroup) {
    Inv(t) && forall p :: 0 <= p < |t.replicas| ==> ExplainedAt(t.replicas[p], A.Prefix(t.log, p))
  }

  /** Answering a READ raises a last access only when the READ was early. */
  lemma AnswerIsExplained(r: Replica, prefix: seq<Entry>, found: Option<Entry>, i: nat, request: Request, retries: nat)
    requires Lawful(prefix) && !r.halted && ExplainedAt(r, prefix)
    requires found.Some? ==> i < |prefix| && found.value == prefix[i]
    ensures
      var store := TaskRun(r, found, request, retries).1;
      ExplainedAt(r.(store := store), prefix)
  {
    if found.Some? && request.kind == READ && prefix[i].Read? {
      assert prefix[..|prefix|] == prefix;
      ReplayNeverHalts(prefix);
      if prefix[i].key in Replay(prefix[..i]).store {
        ReadSettlesAtIndex(prefix, i, |prefix|);
        FollowerReadsTheSame(r.store, Replay(prefix).store, prefix[i].key, prefix[i].timestamp);
      } else {
        assert EarlyRead(prefix, i);
        assert KeyTime(prefix[i].key, prefix[i].timestamp) in EarlyReads(prefix);
      }
    }
  }

  /** What a task finds for its request's id is an entry that the replica has delivered. */
  lemma FoundIsDelivered(t: TabletGroup, p: nat, id: string) returns (i: nat)
    requires Inv(t) && p < |t.replicas| && !t.replicas[p].halted
    ensures Lawful(A.Prefix(t.log, p))
    ensures
      var prefix, found := A.Prefix(t.log, p), FoundEntry(t, p, id);
      found.Some? ==> i < |prefix| && found.value == prefix[i]
  {
    A.AgreedEntriesAreGuarded(Guard, t.log);
    GuardedIsLawful(A.Prefix(t.log, p));
    ReplayIsExact(A.Prefix(t.log, p));
    var ids := t.replicas[p].requestIds;
    i := if id in ids then ids[id] else 0;
  }

  lemma SamePrefixes(log: A.AgreedLog, log': A.AgreedLog, p: nat)
    requires A.WellFormed(log) && A.WellFormed(log') && log.agreed <= log'.agreed && |log.seen| == |log'.seen|
    requires forall q :: 0 <= q < |log.seen| && q != p ==> log'.seen[q] == log.seen[q]
    ensures forall q :: 0 <= q < |log.seen| && q != p ==> A.Prefix(log', q) == A.Prefix(log, q)
    ensures p < |log.seen| && log'.seen[p] == log.seen[p] ==> A.Prefix(log', p) == A.Prefix(log, p)
  {
  }

  lemma TaskExplained(t: TabletGroup, t': TabletGroup, p: nat, request: Request, retries: nat)
    requires AllExplained(t) && RunsTask(t, t', p, request, retries)
    ensures AllExplained(t')
  {
    RunsTaskKeeps(t, t', p, request, retries);
    var prefix, found := A.Prefix(t.log, p), FoundEntry(t, p, request.id);
    var i := FoundIsDelivered(t, p, request.id);
    AnswerIsExplained(t.replicas[p], prefix, found, i, request, retries);
    SamePrefixes(t.log, t'.log, p);
  }

  lemma AdvanceExplained(t: TabletGroup, t': TabletGroup, p: nat, k: nat)
    requires AllExplained(t) && Advances(t, t', p, k)
    ensures AllExplained(t')
  {
    AdvancesKeeps(t, t', p, k);
    A.AgreedEntriesAreGuarded(Guard, t.log);
    GuardedIsLawful(t.log.agreed);
    RangeExplained(t.replicas[p], t.log.agreed, t.log.seen[p], k);
    SamePrefixes(t.log, t'.log, p);
  }

  lemma NextExplained(t: TabletGroup, t': TabletGroup)
    requires AllExplained(t) && Next(t, t')
    ensures AllExplained(t')
  {
    if p, request, retries :| RunsTask(t, t', p, request, retries) {
      TaskExplained(t, t', p, request, retries);
    } else if e :| Decides(t, t', e) {
      DecidesKeeps(t, t', e);
      SamePrefixes(t.log, t'.log, |t.replicas|);
    } else {
      var p, k :| Advances(t, t', p, k);
      AdvanceExplained(t, t', p, k);
    }
  }

  /** A replica that halted has delivered an early READ and a write in whose way it stands. */
  lemma HaltedDeliveredRaise(n: nat, t: TabletGroup, p: nat)
    requires Reached(n, t) && p < n
    ensures |t.replicas| == |t.log.seen| == n && A.WellFormed(t.log)
    ensures t.replicas[p].halted ==> CanGoWrong(A.Prefix(t.log, p))
  {
    ReachedHolds(n, t);
    forall t, t' | AllExplained(t) && Next(t, t')
      ensures AllExplained(t')
    {
      NextExplained(t, t');
    }
    assert AllExplained(InitGroup(n));
    LeadsKeeps(Steps(), (t: TabletGroup) => AllExplained(t), InitGroup(n), t);
  }

  // ----- Building runs -----

  function RequestOf(e: Entry): Request
    requires IsRequest(e)
  {
    if e.Read? then Request(e.requestId, READ, e.key, "", e.timestamp)
    else Request(e.requestId, WRITE, e.key, e.value, e.timestamp)
  }

  // The first j entries of the log are agreed, replica w has delivered them and nobody else any.
  ghost predicate WrittenBy(n: nat, t: TabletGroup, w: nat, log: seq<Entry>, j: nat)
    requires w < n && j <= |log|
  {
    && Reached(n, t) && t.log.agreed == log[..j]
    && t.log.seen == seq(n, _ => 0)[w := j]
    && t.replicas == seq(n, _ => INIT_REPLICA)[w := Replay(log[..j])]
  }

  /** A request task at replica w proposes the next entry of the log. */
  lemma ProposeNext(n: nat, t: TabletGroup, w: nat, log: seq<Entry>, j: nat) returns (t': TabletGroup)
    requires w < n && j < |log| && Lawful(log) && WrittenBy(n, t, w, log, j)
    ensures WrittenBy(n, t', w, log, j) && A.Offer(j, log[j]) in t'.log.offers
  {
    assert MayPropose(log[..j], log[j]);
    PrefixNeverHalts(log, j);
    t' := t.(log := t.log.(offers := t.log.offers + {A.Offer(j, log[j])}));
    assert t'.replicas == t.replicas[w := t.replicas[w].(store := t.replicas[w].store)];
    assert A.Offers(t.log, t'.log, w, log[j]);
    assert RunsTask(t, t', w, RequestOf(log[j]), 0);
    LeadsOn(Steps(), InitGroup(n), t, t');
  }

  lemma Decide(n: nat, t: TabletGroup, e: Entry) returns (t': TabletGroup)
    requires Reached(n, t) && A.Offer(|t.log.agreed|, e) in t.log.offers
    ensures Reached(n, t') && t' == t.(log := t.log.(agreed := t.log.agreed + [e]))
  {
    t' := t.(log := t.log.(agreed := t.log.agreed + [e]));
    assert Decides(t, t', e);
    LeadsOn(Steps(), InitGroup(n), t, t');
  }

  lemma Advance(n: nat, t: TabletGroup, p: nat, k: nat) returns (t': TabletGroup)
    requires Reached(n, t) && p < |t.replicas| && !t.replicas[p].halted
    requires p < |t.log.seen| && t.log.seen[p] <= k <= |t.log.agreed|
    ensures Reached(n, t') && t'.log == t.log.(seen := t.log.seen[p := k])
    ensures t'.replicas == t.replicas[p := DeliverRange(t.replicas[p], t.log.agreed, t.log.seen[p], k)]
  {
    var replica := DeliverRange(t.replicas[p], t.log.agreed, t.log.seen[p], k);
    t' := TabletGroup(t.log.(seen := t.log.seen[p := k]), t.replicas[p := replica]);
    assert Advances(t, t', p, k);
    LeadsOn(Steps(), InitGroup(n), t, t');
  }

  /** Every lawful log can come to be agreed. */
  lemma {:induction false} WriteLog(n: nat, w: nat, log: seq<Entry>, j: nat) returns (t: TabletGroup)
    requires w < n && j <= |log| && Lawful(log)
    ensures WrittenBy(n, t, w, log, j)
  {
    if j == 0 {
      t := InitGroup(n);
      LeadsToItself(Steps(), t);
    } else {
      var m := WriteLog(n, w, log, j - 1);
      m := ProposeNext(n, m, w, log, j - 1);
      PrefixNeverHalts(log, j - 1);
      var d := Decide(n, m, log[j - 1]);
      assert d.log.agreed == log[..j];
      t := Advance(n, d, w, j);
      DeliverRangeSame(INIT_REPLICA, log[..j - 1], log[..j], 0, j - 1);
      assert t.replicas[w] == OnEntry(Replay(log[..j - 1]), j - 1, log[j - 1]) by {
        assert DeliverRange(d.replicas[w], d.log.agreed, j - 1, j - 1) == d.replicas[w];
      }
      ReplayNext(log, j - 1);
    }
  }

  /** The logs that can come to be agreed are the lawful ones. */
  lemma AgreedIffLawful(n: nat, log: seq<Entry>)
    requires n > 0
    ensures (exists t :: Reached(n, t) && t.log.agreed == log) <==> Lawful(log)
  {
    if Lawful(log) {
      var t := WriteLog(n, 0, log, |log|);
      assert log[..|log|] == log;
    }
    if t :| Reached(n, t) && t.log.agreed == log {
      AgreedIsLawful(n, t);
    }
  }

  /** Replica p, at whatever index it is, delivers up to the end of what w wrote. */
  lemma CatchUp(n: nat, t: TabletGroup, w: nat, p: nat, log: seq<Entry>, j: nat) returns (t': TabletGroup)
    requires w < n && p < n && j <= |log| && Lawful(log) && WrittenBy(n, t, w, log, j)
    ensures Reached(n, t') && |t'.replicas| == n && t'.log == t.log.(seen := t.log.seen[p := j])
    ensures t'.replicas[p] == Replay(log[..j])
  {
    PrefixNeverHalts(log, j);
    t' := Advance(n, t, p, j);
    if p != w {
      assert t'.replicas[p] == DeliverRange(INIT_REPLICA, log[..j], 0, j);
    }
  }

  // Answering the READ at index i changes nothing but p's store, and that as reading it again does.
  lemma AnswerAgain(n: nat, t: TabletGroup, p: nat, log: seq<Entry>, i: nat) returns (t': TabletGroup)
    requires Reached(n, t) && p < |t.replicas| && p < |t.log.seen| && Lawful(log)
    requires i < |log| && log[i].Read? && t.replicas[p] == Replay(log) && t.log.agreed == log
    ensures Reached(n, t') && RunsTask(t, t', p, RequestOf(log[i]), 0) && t'.log == t.log
    ensures
      var store := AfterRead(Replay(log).store, log[i].key, log[i].timestamp);
      t'.replicas == t.replicas[p := Replay(log).(store := store)]
  {
    ReplayIsExact(log);
    ReplayNeverHalts(log);
    assert FoundEntry(t, p, log[i].requestId) == Some(log[i]);
    var store := AfterRead(Replay(log).store, log[i].key, log[i].timestamp);
    t' := t.(replicas := t.replicas[p := Replay(log).(store := store)]);
    assert RunsTask(t, t', p, RequestOf(log[i]), 0);
    LeadsOn(Steps(), InitGroup(n), t, t');
  }

  // ----- When replicas halt -----

  /**
   A replica halts at its next entry exactly when that is a write which the replayed log allows and
   the replica's own last access, raised by answering READs, no longer does.
  */
  lemma HaltsIffRaised(n: nat, t: TabletGroup, p: nat)
    requires Reached(n, t) && p < |t.replicas| && p < |t.log.seen|
    requires !t.replicas[p].halted && t.log.seen[p] < |t.log.agreed|
    ensures
      var i := t.log.seen[p];
      var e, own, replayed := t.log.agreed[i], t.replicas[p].store, Replay(t.log.agreed[..i]).store;
      OnEntry(t.replicas[p], i, e).halted
      <==> e.Write? && e.key in own && e.key in replayed && replayed[e.key].lat < e.timestamp <= own[e.key].lat
  {
    AgreedIsLawful(n, t);
    var i := t.log.seen[p];
    assert MayPropose(t.log.agreed[..i], t.log.agreed[i]);
    assert Follows(t.replicas[p], Replay(A.Prefix(t.log, p)));
  }

  lemma RaisedWriteHalts(log: seq<Entry>, i: nat, k: nat)
    requires Lawful(log) && Raises(log, i, k)
    ensures !OnEntry(Replay(log[..k]), k, log[k]).halted
    ensures
      var r := Replay(log[..k]);
      OnEntry(r.(store := AfterRead(r.store, log[i].key, log[i].timestamp)), k, log[k]).halted
  {
    var r := Replay(log[..k]);
    assert MayPropose(log[..k], log[k]);
    PrefixNeverHalts(log, k);
    VersionsUpToLat(r.store, log[i].key);
    HasVersionIffRead(r.store, log[i].key, log[i].timestamp);
  }

  lemma VersionsUpToLat(store: Store, key: string)
    requires ValidStore(store) && key in store
    ensures HasVersionBy(store, key, store[key].lat)
  {
    var versions := store[key].versions;
    assert versions[0].timestamp <= versions[|versions| - 1].timestamp;
  }

  /** What answering the READ at index i does to replica p, which is about to deliver the entry at index k. */
  ghost predicate AnswerHalts(t: TabletGroup, u: TabletGroup, v: TabletGroup, p: nat, log: seq<Entry>, i: nat, k: nat)
    requires i < |log| && IsRequest(log[i]) && k < |log|
  {
    && p < |t.replicas| && p < |u.replicas| && p < |v.replicas|
    && t.log.agreed == log[..k] && v.log.agreed == log[..k + 1]
    && t.replicas[p] == Replay(log[..k]) && !OnEntry(t.replicas[p], k, log[k]).halted
    && RunsTask(t, u, p, RequestOf(log[i]), 0) && !u.replicas[p].halted
    && v.replicas[p] == OnEntry(u.replicas[p], k, log[k]) && v.replicas[p].halted
  }

  /**
   Whenever a lawful log has an early READ in the way of a write, a replica can halt: replica w
   proposes the entries, p delivers those below the write, answers the READ again, and delivers the
   write. Without the answer it would not have halted.

   All tasks of a replica share one queue, where the answer waits for the writer's task if w is p.
   That task gives up after RETRY_LIMIT proposals of the same entry, and all but the first of them
   leave the offers as they are.
  */
  lemma AnswerCanHalt(n: nat, p: nat, w: nat, log: seq<Entry>, i: nat, k: nat)
    returns (t: TabletGroup, u: TabletGroup, v: TabletGroup)
    requires p < n && w < n && Lawful(log) && Raises(log, i, k)
    ensures Reached(n, t) && Reached(n, u) && Reached(n, v)
    ensures AnswerHalts(t, u, v, p, log, i, k)
  {
    var prefix := log[..k];
    t := WriteLog(n, w, log, k);
    t := ProposeNext(n, t, w, log, k);
    t := CatchUp(n, t, w, p, log, k);
    RaisedWriteHalts(log, i, k);
    PrefixNeverHalts(log, k);
    LawfulPrefix(log, k);
    u := AnswerAgain(n, t, p, prefix, i);
    v := Decide(n, u, log[k]);
    var before := v;
    assert before.log.agreed == log[..k + 1];
    v := Advance(n, before, p, k + 1);
    assert DeliverRange(before.replicas[p], before.log.agreed, k, k) == before.replicas[p];
  }

  // Replica p can halt in a run whose agreed log is a prefix of this one.
  ghost predicate CanHalt(n: nat, p: nat, log: seq<Entry>) {
    exists t :: Reached(n, t) && t.log.agreed <= log && p < |t.replicas| && t.replicas[p].halted
  }

  /**
   A replica can halt, whichever it is, exactly when the log has an early READ and later a write to
   its key, which exists by then, at a time no later than the READ's.
  */
  lemma HaltsIffEarlyReadRaises(n: nat, p: nat, log: seq<Entry>)
    requires p < n && Lawful(log)
    ensures CanHalt(n, p, log) <==> CanGoWrong(log)
  {
    if CanHalt(n, p, log) {
      var t :| Reached(n, t) && t.log.agreed <= log && p < |t.replicas| && t.replicas[p].halted;
      HaltedDeliveredRaise(n, t, p);
      var prefix := A.Prefix(t.log, p);
      var i: nat, k: nat :| Raises(prefix, i, k);
      RaisesLonger(prefix, log, i, k);
    }
    if CanGoWrong(log) {
      var i: nat, k: nat :| Raises(log, i, k);
      var t, u, v := AnswerCanHalt(n, p, (p + 1) % n, log, i, k);
      assert v.log.agreed <= log;
    }
  }

  /** Hence a run whose log has no such pair keeps all its replicas up. */
  lemma NoRaiseNoHalt(n: nat, t: TabletGroup)
    requires Reached(n, t) && !CanGoWrong(t.log.agreed)
    ensures NoneHalted(t)
  {
    ReachedHolds(n, t);
    AgreedIsLawful(n, t);
    forall p | 0 <= p < n
      ensures !t.replicas[p].halted
    {
      HaltsIffEarlyReadRaises(n, p, t.log.agreed);
    }
  }

  // ----- When replicas drift -----

  /** Having delivered m entries, a replica that answers the READ at index i raises a last access. */
  ghost predicate Drifts(log: seq<Entry>, i: nat, m: nat) {
    && i < m <= |log| && EarlyRead(log, i)
    && HasVersionBy(Replay(log[..m]).store, log[i].key, log[i].timestamp)
    && Replay(log[..m]).store[log[i].key].lat < log[i].timestamp
  }

  ghost predicate CanDrift(log: seq<Entry>) {
    exists i: nat, m: nat :: Drifts(log, i, m)
  }

  lemma DriftsLonger(log: seq<Entry>, longer: seq<Entry>, i: nat, m: nat)
    requires log <= longer && m <= |log|
    ensures Drifts(log, i, m) <==> Drifts(longer, i, m)
  {
    assert longer[..m] == log[..m];
    if i < m {
      assert longer[..i] == log[..i];
    }
  }

  ghost predicate InStepOrDrifting(t: TabletGroup) {
    Inv(t) && forall p :: 0 <= p < |t.replicas| ==>
      t.replicas[p] == Replay(A.Prefix(t.log, p)) || CanDrift(A.Prefix(t.log, p))
  }

  lemma AnswerDrifts(r: Replica, prefix: seq<Entry>, found: Option<Entry>, i: nat, request: Request, retries: nat)
    requires Lawful(prefix) && r == Replay(prefix)
    requires found.Some? ==> i < |prefix| && found.value == prefix[i]
    ensures TaskRun(r, found, request, retries).1 == r.store || CanDrift(prefix)
  {
    if found.Some? && request.kind == READ && prefix[i].Read? {
      assert prefix[..|prefix|] == prefix;
      ReplayNeverHalts(prefix);
      HasVersionIffRead(r.store, prefix[i].key, prefix[i].timestamp);
      if prefix[i].key in Replay(prefix[..i]).store {
        ReadSettlesAtIndex(prefix, i, |prefix|);
        FollowerReadsTheSame(r.store, r.store, prefix[i].key, prefix[i].timestamp);
      } else if AfterRead(r.store, prefix[i].key, prefix[i].timestamp) != r.store {
        assert Drifts(prefix, i, |prefix|);
      }
    }
  }

  lemma TaskStaysInStep(t: TabletGroup, t': TabletGroup, p: nat, request: Request, retries: nat)
    requires InStepOrDrifting(t) && RunsTask(t, t', p, request, retries)
    ensures InStepOrDrifting(t')
  {
    RunsTaskKeeps(t, t', p, request, retries);
    var prefix, found := A.Prefix(t.log, p), FoundEntry(t, p, request.id);
    var i := FoundIsDelivered(t, p, request.id);
    if !CanDrift(prefix) {
      AnswerDrifts(t.replicas[p], prefix, found, i, request, retries);
    }
    SamePrefixes(t.log, t'.log, p);
  }

  lemma AdvanceStaysInStep(t: TabletGroup, t': TabletGroup, p: nat, k: nat)
    requires InStepOrDrifting(t) && Advances(t, t', p, k)
    ensures InStepOrDrifting(t')
  {
    AdvancesKeeps(t, t', p, k);
    if CanDrift(A.Prefix(t.log, p)) {
      var i: nat, m: nat :| Drifts(A.Prefix(t.log, p), i, m);
      DriftsLonger(A.Prefix(t.log, p), A.Prefix(t'.log, p), i, m);
    } else {
      DeliverRangeComposes(t.replicas[p], t.log.agreed, t.log.seen[p], k);
    }
    SamePrefixes(t.log, t'.log, p);
  }

  lemma NextStaysInStep(t: TabletGroup, t': TabletGroup)
    requires InStepOrDrifting(t) && Next(t, t')
    ensures InStepOrDrifting(t')
  {
    if p, request, retries :| RunsTask(t, t', p, request, retries) {
      TaskStaysInStep(t, t', p, request, retries);
    } else if e :| Decides(t, t', e) {
      DecidesKeeps(t, t', e);
      SamePrefixes(t.log, t'.log, |t.replicas|);
    } else {
      var p, k :| Advances(t, t', p, k);
      AdvanceStaysInStep(t, t', p, k);
    }
  }

  lemma InStepUnlessDrifting(n: nat, t: TabletGroup, p: nat)
    requires Reached(n, t) && p < n
    ensures |t.replicas| == |t.log.seen| == n && A.WellFormed(t.log)
    ensures t.replicas[p] == Replay(A.Prefix(t.log, p)) || CanDrift(A.Prefix(t.log, p))
  {
    ReachedHolds(n, t);
    forall t, t' | InStepOrDrifting(t) && Next(t, t')
      ensures InStepOrDrifting(t')
    {
      NextStaysInStep(t, t');
    }
    assert InStepOrDrifting(InitGroup(n));
    LeadsKeeps(Steps(), (t: TabletGroup) => InStepOrDrifting(t), InitGroup(n), t);
  }

  // In some run with a prefix of this log, replica p does not equal the replay of what it delivered.
  ghost predicate CanDiffer(n: nat, p: nat, log: seq<Entry>) {
    exists t :: Reached(n, t) && t.log.agreed <= log && p < |t.replicas| && p < |t.log.seen|
                && t.log.seen[p] <= |t.log.agreed| && t.replicas[p] != Replay(t.log.agreed[..t.log.seen[p]])
  }

  /**
   A replica can come to differ from the replay of what it has delivered, exactly when the log has an
   early READ and at some later index a version at or before its time, with no later access.
  */
  lemma DiffersIffEarlyReadDrifts(n: nat, p: nat, log: seq<Entry>)
    requires p < n && Lawful(log)
    ensures CanDiffer(n, p, log) <==> CanDrift(log)
  {
    if CanDiffer(n, p, log) {
      var t :| Reached(n, t) && t.log.agreed <= log && p < |t.replicas| && p < |t.log.seen|
               && t.log.seen[p] <= |t.log.agreed| && t.replicas[p] != Replay(t.log.agreed[..t.log.seen[p]]);
      InStepUnlessDrifting(n, t, p);
      var prefix := A.Prefix(t.log, p);
      var i: nat, m: nat :| Drifts(prefix, i, m);
      DriftsLonger(prefix, log, i, m);
    }
    if CanDrift(log) {
      var i: nat, m: nat :| Drifts(log, i, m);
      var t := DriftingRun(n, p, log, i, m);
      assert t.log.agreed[..m] == log[..m] && t.log.agreed <= log;
    }
  }

  lemma DriftingRun(n: nat, p: nat, log: seq<Entry>, i: nat, m: nat) returns (t: TabletGroup)
    requires p < n && Lawful(log) && Drifts(log, i, m)
    ensures Reached(n, t) && p < |t.replicas| && p < |t.log.seen|
    ensures t.log.agreed == log[..m] && t.log.seen[p] == m && t.replicas[p] != Replay(log[..m])
  {
    t := WriteLog(n, p, log, m);
    LawfulPrefix(log, m);
    PrefixNeverHalts(log, m);
    HasVersionIffRead(Replay(log[..m]).store, log[i].key, log[i].timestamp);
    var before := t;
    t := AnswerAgain(n, before, p, log[..m], i);
  }

  /** A log on which a replica can halt is one on which it can differ before. */
  lemma RaisesDrifts(log: seq<Entry>, i: nat, k: nat)
    requires Lawful(log) && Raises(log, i, k)
    ensures Drifts(log, i, k)
  {
    assert MayPropose(log[..k], log[k]);
    PrefixNeverHalts(log, k);
    VersionsUpToLat(Replay(log[..k]).store, log[i].key);
  }

  // ----- Runs in which no answer touches a store -----

  /** A step that, if it is the run of a task, leaves every store as it is. */
  ghost predicate QuietNext(t: TabletGroup, t': TabletGroup) {
    Next(t, t') && forall p, request, retries :: RunsTask(t, t', p, request, retries) ==> t'.replicas == t.replicas
  }

  ghost predicate InStep(t: TabletGroup) {
    Inv(t) && forall p :: 0 <= p < |t.replicas| ==> t.replicas[p] == Replay(A.Prefix(t.log, p))
  }

  lemma QuietNextKeeps(t: TabletGroup, t': TabletGroup)
    requires InStep(t) && QuietNext(t, t')
    ensures InStep(t')
  {
    NextKeeps(t, t');
    if p: nat, k: nat :| Advances(t, t', p, k) {
      DeliverRangeComposes(t.replicas[p], t.log.agreed, t.log.seen[p], k);
      SamePrefixes(t.log, t'.log, p);
    } else {
      assert t'.replicas == t.replicas;
      SamePrefixes(t.log, t'.log, |t.replicas|);
    }
  }

  /** A task that changes a store takes its replica out of step. */
  lemma InStepIsQuiet(t: TabletGroup, t': TabletGroup)
    requires InStep(t) && InStep(t') && Next(t, t')
    ensures QuietNext(t, t')
  {
    forall p, request, retries | RunsTask(t, t', p, request, retries)
      ensures t'.replicas == t.replicas
    {
      SamePrefixes(t.log, t'.log, |t.replicas|);
      forall q | 0 <= q < |t.replicas|
        ensures t'.replicas[q] == t.replicas[q]
      {
        assert A.Prefix(t'.log, q) == A.Prefix(t.log, q);
      }
    }
  }

  ghost predicate QuietAt(run: seq<TabletGroup>, i: nat) {
    i + 1 < |run| && QuietNext(run[i], run[i + 1])
  }

  ghost predicate InStepAt(run: seq<TabletGroup>, i: nat) {
    i < |run| && InStep(run[i]) && NoneHalted(run[i])
  }

  lemma InStepIsUp(t: TabletGroup)
    requires InStep(t)
    ensures NoneHalted(t)
  {
    A.AgreedEntriesAreGuarded(Guard, t.log);
    forall p | 0 <= p < |t.replicas|
      ensures !t.replicas[p].halted
    {
      GuardedIsLawful(A.Prefix(t.log, p));
      ReplayNeverHalts(A.Prefix(t.log, p));
    }
  }

  lemma {:induction false} QuietSoFar(n: nat, run: seq<TabletGroup>, i: nat)
    requires i < |run| && run[0] == InitGroup(n)
    requires forall j: nat :: j < i ==> QuietAt(run, j)
    ensures InStepAt(run, i)
  {
    if i > 0 {
      QuietSoFar(n, run, i - 1);
      assert QuietAt(run, i - 1);
      QuietNextKeeps(run[i - 1], run[i]);
    }
    InStepIsUp(run[i]);
  }

  /**
   Whatever the log, all replicas stay up and equal to the replay of what they delivered all through a
   run exactly when no task in it changes a store.
  */
  lemma InStepIffQuiet(n: nat, run: seq<TabletGroup>)
    requires IsPath(Steps(), run) && run[0] == InitGroup(n)
    ensures (forall i: nat :: i < |run| ==> InStepAt(run, i)) <==> (forall i: nat :: i + 1 < |run| ==> QuietAt(run, i))
  {
    if forall i: nat :: i < |run| ==> InStepAt(run, i) {
      forall i: nat | i + 1 < |run|
        ensures QuietAt(run, i)
      {
        assert StepAt(Steps(), run, i) && InStepAt(run, i) && InStepAt(run, i + 1);
        InStepIsQuiet(run[i], run[i + 1]);
      }
    }
    if forall i: nat :: i + 1 < |run| ==> QuietAt(run, i) {
      forall i: nat | i < |run|
        ensures InStepAt(run, i)
      {
        QuietSoFar(n, run, i);
      }
    }
  }

  // ----- An example -----

  // A READ at time 10 that is delivered before its key exists, and writes at times 5 and 7.
  const EARLY_LOG := [Read("r", "k", 10), Write("v", "k", "a", 5), Write("w", "k", "b", 7)]

  lemma EarlyLogReplays()
    ensures Replay(EARLY_LOG[..0]) == INIT_REPLICA
    ensures Replay(EARLY_LOG[..1]) == Replica(map["r" := 0], map[], false)
    ensures Replay(EARLY_LOG[..2]) ==
      Replica(map["r" := 0, "v" := 1], map["k" := MultiVersionEntry([Version(5, "a")], 5)], false)
  {
    ReplayNext(EARLY_LOG, 0);
    ReplayNext(EARLY_LOG, 1);
    assert [] + [Version(5, "a")] == [Version(5, "a")];
  }

  lemma EarlyLogIsLawful()
    ensures Lawful(EARLY_LOG) && Raises(EARLY_LOG, 0, 2)
  {
    EarlyLogReplays();
    forall i | 0 <= i < |EARLY_LOG|
      ensures MayPropose(EARLY_LOG[..i], EARLY_LOG[i])
    {
      assert i == 0 || i == 1 || i == 2;
    }
  }

  /** In every group there are runs in which a replica halts because it answered a READ again. */
  lemma RereadCanHalt(n: nat, p: nat, w: nat) returns (t: TabletGroup, u: TabletGroup, v: TabletGroup)
    requires p < n && w < n
    ensures Reached(n, t) && Reached(n, u) && Reached(n, v)
    ensures AnswerHalts(t, u, v, p, EARLY_LOG, 0, 2)
  {
    EarlyLogIsLawful();
    t, u, v := AnswerCanHalt(n, p, w, EARLY_LOG, 0, 2);
  }

  /** And runs in which the answer to a READ is not the value as of its index. */
  lemma RereadCanDiffer(n: nat, p: nat) returns (t: TabletGroup)
    requires p < n
    ensures Reached(n, t) && HasDeliveredRead(t, p, 0)
    ensures
      var (key, timestamp) := ReadPart(t.log.agreed[0]);
      && ReadValue(Replay(t.log.agreed[..0]).store, key, timestamp) == None
      && ReadValue(t.replicas[p].store, key, timestamp) == Some("a")
  {
    EarlyLogIsLawful();
    EarlyLogReplays();
    t := WriteLog(n, p, EARLY_LOG, 2);
    assert t.log.agreed[..0] == EARLY_LOG[..0];
    assert LatestAt([Version(5, "a")], 10) == Some("a");
  }
}
