/**
 A tablet group: replicas that deliver an agreed log of reads and writes, and run client request
 tasks against what they have delivered. A run of a task that finds its READ already delivered
 reads the store again, outside the log.
*/
module Tablet {
  import opened Wrappers
  import opened Paths
  import opened Entries
  import opened KVStores
  import opened ClientRequests
  import A = AgreedLogs

  datatype TabletGroup = TabletGroup(log: A.AgreedLog, replicas: seq<Replica>)

  function InitGroup(n: nat): TabletGroup {
    TabletGroup(A.InitLog(n), seq(n, _ => INIT_REPLICA))
  }

  // ----- Replaying a log -----

  /** Delivers the entries from lo up to, not including, hi. */
  function DeliverRange(r: Replica, entries: seq<Entry>, lo: nat, hi: nat): Replica
    requires lo <= hi <= |entries|
    decreases hi
  {
    if lo == hi then r else OnEntry(DeliverRange(r, entries, lo, hi - 1), hi - 1, entries[hi - 1])
  }

  /** A replica that does nothing but deliver these entries. */
  function Replay(entries: seq<Entry>): Replica {
    DeliverRange(INIT_REPLICA, entries, 0, |entries|)
  }

  lemma {:induction false} DeliverRangeSame(r: Replica, xs: seq<Entry>, ys: seq<Entry>, lo: nat, hi: nat)
    requires lo <= hi <= |xs| && hi <= |ys|
    requires forall i :: lo <= i < hi ==> xs[i] == ys[i]
    ensures DeliverRange(r, xs, lo, hi) == DeliverRange(r, ys, lo, hi)
    decreases hi
  {
    if lo < hi {
      DeliverRangeSame(r, xs, ys, lo, hi - 1);
    }
  }

  lemma ReplayNext(entries: seq<Entry>, n: nat)
    requires n < |entries|
    ensures Replay(entries[..n + 1]) == OnEntry(Replay(entries[..n]), n, entries[n])
  {
    DeliverRangeSame(INIT_REPLICA, entries[..n + 1], entries[..n], 0, n);
  }

  lemma {:induction false} DeliverRangeComposes(r: Replica, entries: seq<Entry>, lo: nat, hi: nat)
    requires lo <= hi <= |entries| && r == Replay(entries[..lo])
    ensures DeliverRange(r, entries, lo, hi) == Replay(entries[..hi])
    decreases hi
  {
    if lo < hi {
      DeliverRangeComposes(r, entries, lo, hi - 1);
      ReplayNext(entries, hi - 1);
    }
  }

  predicate IsRequest(e: Entry) { e.Read? || e.Write? }

  /** What a request task checks before it proposes, on a replica that only replayed the log. */
  ghost predicate MayPropose(prefix: seq<Entry>, e: Entry) {
    && IsRequest(e)
    && e.requestId !in Replay(prefix).requestIds
    && (e.Write? ==> CanWrite(Replay(prefix).store, e.key, e.timestamp))
  }

  ghost const Guard: A.Guard := (prefix, e) => MayPropose(prefix, e)

  // ----- Steps -----

  ghost function FoundEntry(t: TabletGroup, p: nat, id: string): Option<Entry>
    requires p < |t.replicas|
  {
    var ids := t.replicas[p].requestIds;
    if id in ids && ids[id] < |t.log.agreed| then Some(t.log.agreed[ids[id]]) else None
  }

  /** Replica p runs a request task once. */
  ghost predicate RunsTask(t: TabletGroup, t': TabletGroup, p: nat, request: Request, retries: nat) {
    && p < |t.replicas| && !t.replicas[p].halted
    && var (action, store) := TaskRun(t.replicas[p], FoundEntry(t, p, request.id), request, retries);
      && t'.replicas == t.replicas[p := t.replicas[p].(store := store)]
      && if action.ProposeAndWait? then A.Offers(t.log, t'.log, p, action.entry) else t'.log == t.log
  }

  ghost predicate Decides(t: TabletGroup, t': TabletGroup, e: Entry) {
    A.Decides(t.log, t'.log, e) && t'.replicas == t.replicas
  }

  /** Replica p delivers the next entries, up to index k. */
  ghost predicate Advances(t: TabletGroup, t': TabletGroup, p: nat, k: nat) {
    && p < |t.replicas| && !t.replicas[p].halted
    && A.Advances(t.log, t'.log, p, k)
    && t'.replicas == t.replicas[p := DeliverRange(t.replicas[p], t.log.agreed, t.log.seen[p], k)]
  }

  ghost predicate Next(t: TabletGroup, t': TabletGroup) {
    || (exists p, request, retries :: RunsTask(t, t', p, request, retries))
    || (exists e :: Decides(t, t', e))
    || (exists p, k :: Advances(t, t', p, k))
  }

  ghost function Steps(): Relation<TabletGroup> {
    (t, t') => Next(t, t')
  }

  /** The group of n replicas at the end of some run. */
  ghost predicate Reached(n: nat, t: TabletGroup) {
    Leads(Steps(), InitGroup(n), t)
  }

  // ----- How far a replica can be from the replayed log -----

  /** Same keys and versions; the last accesses may be later. */
  ghost predicate AtLeast(store: Store, replayed: Store) {
    && store.Keys == replayed.Keys
    && forall key :: key in store ==>
         store[key].versions == replayed[key].versions && store[key].lat >= replayed[key].lat
  }

  ghost predicate Follows(r: Replica, replayed: Replica) {
    r.requestIds == replayed.requestIds && AtLeast(r.store, replayed.store)
  }

  ghost predicate Inv(t: TabletGroup) {
    && A.WellFormed(t.log)
    && |t.replicas| == |t.log.seen|
    && A.OffersGuarded(Guard, t.log)
    && forall p :: 0 <= p < |t.replicas| && !t.replicas[p].halted ==> Follows(t.replicas[p], Replay(A.Prefix(t.log, p)))
  }

  // ----- Facts about a guarded log -----

  ghost predicate Lawful(entries: seq<Entry>) {
    forall i {:trigger MayPropose(entries[..i], entries[i])} :: 0 <= i < |entries| ==>
      MayPropose(entries[..i], entries[i])
  }

  lemma LawfulPrefix(entries: seq<Entry>, n: nat)
    requires Lawful(entries) && n <= |entries|
    ensures Lawful(entries[..n])
  {
    forall i | 0 <= i < n
      ensures MayPropose(entries[..n][..i], entries[..n][i])
    {
      assert entries[..n][..i] == entries[..i];
    }
  }

  lemma GuardedIsLawful(entries: seq<Entry>)
    requires A.Guarded(Guard, entries)
    ensures Lawful(entries)
  {
    forall i | 0 <= i < |entries|
      ensures MayPropose(entries[..i], entries[i])
    {
      assert Guard(entries[..i], entries[i]);
    }
  }

  /** The map of request ids holds each request of the entries, at its index, and nothing else. */
  ghost predicate IdsExact(entries: seq<Entry>, ids: map<string, nat>) {
    && (forall id :: id in ids ==>
          ids[id] < |entries| && IsRequest(entries[ids[id]]) && entries[ids[id]].requestId == id)
    && (forall i :: 0 <= i < |entries| ==>
          IsRequest(entries[i]) && entries[i].requestId in ids && ids[entries[i].requestId] == i)
  }

  lemma IdsNext(entries: seq<Entry>, ids: map<string, nat>, e: Entry)
    requires IdsExact(entries, ids) && IsRequest(e) && e.requestId !in ids
    ensures IdsExact(entries + [e], ids[e.requestId := |entries|])
  {
  }

  lemma {:induction false} ReplayIsExact(entries: seq<Entry>)
    requires Lawful(entries)
    ensures IdsExact(entries, Replay(entries).requestIds)
    decreases |entries|
  {
    if entries != [] {
      var n := |entries| - 1;
      LawfulPrefix(entries, n);
      ReplayIsExact(entries[..n]);
      assert MayPropose(entries[..n], entries[n]);
      ReplayNeverHalts(entries[..n]);
      IdsNext(entries[..n], Replay(entries[..n]).requestIds, entries[n]);
      ReplayNext(entries, n);
      assert entries == entries[..n] + [entries[n]] == entries[..n + 1];
    }
  }

  /** Replaying the agreed log alone never writes to the past. */
  lemma {:induction false} ReplayNeverHalts(entries: seq<Entry>)
    requires Lawful(entries)
    ensures !Replay(entries).halted && ValidStore(Replay(entries).store)
    decreases |entries|
  {
    if entries != [] {
      var n := |entries| - 1;
      LawfulPrefix(entries, n);
      ReplayNeverHalts(entries[..n]);
      assert MayPropose(entries[..n], entries[n]);
      StoreStaysValid(Replay(entries[..n]), n, entries[n]);
      ReplayNext(entries, n);
      assert entries == entries[..n + 1];
    }
  }

  lemma StoreStaysValid(r: Replica, index: nat, e: Entry)
    requires ValidStore(r.store)
    ensures ValidStore(OnEntry(r, index, e).store)
  {
  }

  /** At most once: a request id is at one index of the log, however often it was proposed. */
  lemma AtMostOnce(entries: seq<Entry>, i: nat, j: nat)
    requires Lawful(entries) && i < |entries| && j < |entries|
    ensures IsRequest(entries[i]) && IsRequest(entries[j])
    ensures entries[i].requestId == entries[j].requestId ==> i == j
  {
    ReplayIsExact(entries);
  }

  // ----- The steps keep the invariant -----

  lemma EntryFollows(r: Replica, replayed: Replica, index: nat, e: Entry)
    requires Follows(r, replayed) && !r.halted && !replayed.halted && IsRequest(e)
    requires e.Write? ==> CanWrite(replayed.store, e.key, e.timestamp)
    ensures OnEntry(r, index, e).halted || Follows(OnEntry(r, index, e), OnEntry(replayed, index, e))
  {
  }

  lemma NextEntryFollows(r: Replica, entries: seq<Entry>, n: nat)
    requires n < |entries| && Lawful(entries)
    requires r.halted || Follows(r, Replay(entries[..n]))
    ensures OnEntry(r, n, entries[n]).halted || Follows(OnEntry(r, n, entries[n]), Replay(entries[..n + 1]))
  {
    assert MayPropose(entries[..n], entries[n]);
    LawfulPrefix(entries, n);
    ReplayNeverHalts(entries[..n]);
    ReplayNext(entries, n);
    if !r.halted {
      EntryFollows(r, Replay(entries[..n]), n, entries[n]);
    }
  }

  lemma {:induction false} DeliverRangeFollows(r: Replica, entries: seq<Entry>, lo: nat, hi: nat)
    requires lo <= hi <= |entries| && Lawful(entries)
    requires Follows(r, Replay(entries[..lo])) && !r.halted
    ensures var r' := DeliverRange(r, entries, lo, hi); r'.halted || Follows(r', Replay(entries[..hi]))
    decreases hi
  {
    if lo < hi {
      DeliverRangeFollows(r, entries, lo, hi - 1);
      NextEntryFollows(DeliverRange(r, entries, lo, hi - 1), entries, hi - 1);
    }
  }

  // Running a task.

  /** A task only proposes what the replica that merely replayed the log would propose too. */
  lemma TaskProposesLawfully(r: Replica, prefix: seq<Entry>, found: Option<Entry>, request: Request, retries: nat)
    requires Follows(r, Replay(prefix))
    requires found.None? ==> request.id !in r.requestIds
    ensures
      var (action, store) := TaskRun(r, found, request, retries);
      && (action.ProposeAndWait? ==> MayPropose(prefix, action.entry))
      && AtLeast(store, Replay(prefix).store)
  {
  }

  lemma RunsTaskKeeps(t: TabletGroup, t': TabletGroup, p: nat, request: Request, retries: nat)
    requires Inv(t) && RunsTask(t, t', p, request, retries)
    ensures Inv(t') && A.Next(Guard, t.log, t'.log)
  {
    var prefix, found := A.Prefix(t.log, p), FoundEntry(t, p, request.id);
    A.AgreedEntriesAreGuarded(Guard, t.log);
    GuardedIsLawful(prefix);
    ReplayIsExact(prefix);
    TaskProposesLawfully(t.replicas[p], prefix, found, request, retries);
    var action := TaskRun(t.replicas[p], found, request, retries).0;
    if action.ProposeAndWait? {
      assert A.Offers(t.log, t'.log, p, action.entry) && Guard(prefix, action.entry);
    }
    A.NextKeeps(Guard, t.log, t'.log);
  }

  lemma DecidesKeeps(t: TabletGroup, t': TabletGroup, e: Entry)
    requires Inv(t) && Decides(t, t', e)
    ensures Inv(t') && A.Next(Guard, t.log, t'.log)
  {
    A.NextKeeps(Guard, t.log, t'.log);
    assert forall p :: 0 <= p < |t.replicas| ==> A.Prefix(t'.log, p) == A.Prefix(t.log, p);
  }

  lemma AdvancesKeeps(t: TabletGroup, t': TabletGroup, p: nat, k: nat)
    requires Inv(t) && Advances(t, t', p, k)
    ensures Inv(t') && A.Next(Guard, t.log, t'.log)
  {
    A.AgreedEntriesAreGuarded(Guard, t.log);
    GuardedIsLawful(t.log.agreed);
    DeliverRangeFollows(t.replicas[p], t.log.agreed, t.log.seen[p], k);
    A.NextKeeps(Guard, t.log, t'.log);
    assert forall q :: 0 <= q < |t.replicas| && q != p ==> A.Prefix(t'.log, q) == A.Prefix(t.log, q);
  }

  lemma NextKeeps(t: TabletGroup, t': TabletGroup)
    requires Inv(t) && Next(t, t')
    ensures Inv(t') && A.Next(Guard, t.log, t'.log)
  {
    if p, request, retries :| RunsTask(t, t', p, request, retries) {
      RunsTaskKeeps(t, t', p, request, retries);
    } else if e :| Decides(t, t', e) {
      DecidesKeeps(t, t', e);
    } else {
      var p, k :| Advances(t, t', p, k);
      AdvancesKeeps(t, t', p, k);
    }
  }

  lemma ReachedHolds(n: nat, t: TabletGroup)
    requires Reached(n, t)
    ensures Inv(t) && |t.replicas| == n
  {
    forall t, t' | Inv(t) && |t.replicas| == n && Next(t, t')
      ensures Inv(t') && |t'.replicas| == n
    {
      NextKeeps(t, t');
    }
    LeadsKeeps(Steps(), (t: TabletGroup) => Inv(t) && |t.replicas| == n, InitGroup(n), t);
  }

  // ----- What every run guarantees -----

  lemma AgreedIsLawful(n: nat, t: TabletGroup)
    requires Reached(n, t)
    ensures Inv(t) && |t.replicas| == n && Lawful(t.log.agreed)
    ensures forall p :: 0 <= p < n ==> Lawful(A.Prefix(t.log, p))
  {
    ReachedHolds(n, t);
    A.AgreedEntriesAreGuarded(Guard, t.log);
    GuardedIsLawful(t.log.agreed);
    forall p | 0 <= p < n
      ensures Lawful(A.Prefix(t.log, p))
    {
      GuardedIsLawful(A.Prefix(t.log, p));
    }
  }

  /**
   In every run, each request id is at one index of the agreed log at most, replaying that log
   never writes to the past, and a replica that has not halted holds exactly the versions of the
   prefix it delivered, with last accesses that are no earlier.
  */
  lemma TabletIsSafe(n: nat, t: TabletGroup)
    requires Reached(n, t)
    ensures
      && (forall i, j :: 0 <= i < |t.log.agreed| && 0 <= j < |t.log.agreed| ==>
            IsRequest(t.log.agreed[i]) && IsRequest(t.log.agreed[j])
            && (t.log.agreed[i].requestId == t.log.agreed[j].requestId ==> i == j))
      && !Replay(t.log.agreed).halted && ValidStore(Replay(t.log.agreed).store)
      && A.WellFormed(t.log) && |t.log.seen| == |t.replicas| == n
      && forall p :: 0 <= p < n && !t.replicas[p].halted ==> Follows(t.replicas[p], Replay(A.Prefix(t.log, p)))
  {
    AgreedIsLawful(n, t);
    ReplayNeverHalts(t.log.agreed);
    forall i, j | 0 <= i < |t.log.agreed| && 0 <= j < |t.log.agreed|
      ensures IsRequest(t.log.agreed[i]) && IsRequest(t.log.agreed[j])
      ensures t.log.agreed[i].requestId == t.log.agreed[j].requestId ==> i == j
    {
      AtMostOnce(t.log.agreed, i, j);
    }
  }

  // ----- Answering a delivered READ -----

  lemma SettledStays(r: Replica, index: nat, e: Entry, key: string, timestamp: nat)
    requires Settled(r.store, key, timestamp)
    ensures Settled(OnEntry(r, index, e).store, key, timestamp)
    ensures ReadValue(OnEntry(r, index, e).store, key, timestamp) == ReadValue(r.store, key, timestamp)
  {
    match e
    case Read(_, k, ts) => StaysSettled(r.store, key, timestamp, ReadOp(k, ts));
    case Write(_, k, v, ts) =>
      if CanWrite(r.store, k, ts) {
        StaysSettled(r.store, key, timestamp, WriteOp(k, v, ts));
      }
    case _ =>
  }

  lemma PrefixNeverHalts(entries: seq<Entry>, n: nat)
    requires Lawful(entries) && n <= |entries|
    ensures !Replay(entries[..n]).halted && ValidStore(Replay(entries[..n]).store)
  {
    LawfulPrefix(entries, n);
    ReplayNeverHalts(entries[..n]);
  }

  lemma {:induction false} SettledThroughRange(
    r: Replica, entries: seq<Entry>, lo: nat, hi: nat, key: string, timestamp: nat)
    requires lo <= hi <= |entries| && Settled(r.store, key, timestamp)
    ensures Settled(DeliverRange(r, entries, lo, hi).store, key, timestamp)
    ensures ReadValue(DeliverRange(r, entries, lo, hi).store, key, timestamp) == ReadValue(r.store, key, timestamp)
    decreases hi
  {
    if lo < hi {
      SettledThroughRange(r, entries, lo, hi - 1, key, timestamp);
      SettledStays(DeliverRange(r, entries, lo, hi - 1), hi - 1, entries[hi - 1], key, timestamp);
    }
  }

  /** From the index of a READ whose key existed, the value it read is settled. */
  lemma ReadSettlesAtIndex(entries: seq<Entry>, i: nat, n: nat)
    requires Lawful(entries) && i < n <= |entries| && entries[i].Read?
    requires entries[i].key in Replay(entries[..i]).store
    ensures
      var (key, timestamp) := (entries[i].key, entries[i].timestamp);
      && Settled(Replay(entries[..n]).store, key, timestamp)
      && ReadValue(Replay(entries[..n]).store, key, timestamp) == ReadValue(Replay(entries[..i]).store, key, timestamp)
  {
    var key, timestamp := entries[i].key, entries[i].timestamp;
    PrefixNeverHalts(entries, i);
    ReplayNext(entries, i);
    ReadSettles(Replay(entries[..i]).store, key, timestamp);
    SettledThroughRange(Replay(entries[..i + 1]), entries, i + 1, n, key, timestamp);
    DeliverRangeComposes(Replay(entries[..i + 1]), entries, i + 1, n);
  }

  lemma FollowerReadsTheSame(store: Store, replayed: Store, key: string, timestamp: nat)
    requires AtLeast(store, replayed) && Settled(replayed, key, timestamp)
    ensures ReadValue(store, key, timestamp) == ReadValue(replayed, key, timestamp)
    ensures AfterRead(store, key, timestamp) == store
  {
  }

  /** A valid store has no version of a key at or before a time exactly when this test fails. */
  predicate HasVersionBy(store: Store, key: string, timestamp: nat) {
    key in store && store[key].versions != [] && store[key].versions[0].timestamp <= timestamp
  }

  lemma HasVersionIffRead(store: Store, key: string, timestamp: nat)
    requires key in store ==> store[key].versions != [] && IncreasingVersions(store[key].versions)
    ensures HasVersionBy(store, key, timestamp) <==> ReadValue(store, key, timestamp).Some?
  {
    if key in store {
      var versions := store[key].versions;
      if ReadValue(store, key, timestamp).None? {
        NothingBefore(versions, timestamp);
      } else if timestamp < versions[0].timestamp {
        LatestAtIs(versions, timestamp, 0);
      }
    }
  }

  /** Replica p is up and has delivered a READ at index i. */
  ghost predicate HasDeliveredRead(t: TabletGroup, p: nat, i: nat) {
    && p < |t.replicas| && p < |t.log.seen| && !t.replicas[p].halted
    && i < t.log.seen[p] && i < |t.log.agreed| && t.log.agreed[i].Read?
  }

  /**
   A replica that answers a READ it has delivered at index i returns the value as of index i,
   exactly when the key existed there, or there is no version of it so early now either. The store
   changes exactly when the key did not exist there, has an early enough version by now, and was
   last accessed before the READ's time.
  */
  lemma RereadReturnsTheOldValue(n: nat, t: TabletGroup, p: nat, i: nat)
    requires Reached(n, t) && HasDeliveredRead(t, p, i)
    ensures
      var (key, timestamp) := ReadPart(t.log.agreed[i]);
      var store, past := t.replicas[p].store, Replay(t.log.agreed[..i]).store;
      && (ReadValue(store, key, timestamp) == ReadValue(past, key, timestamp)
          <==> key in past || !HasVersionBy(store, key, timestamp))
      && (AfterRead(store, key, timestamp) != store
          <==> key !in past && HasVersionBy(store, key, timestamp) && store[key].lat < timestamp)
  {
    AgreedIsLawful(n, t);
    var (key, timestamp) := ReadPart(t.log.agreed[i]);
    var replayed := Replay(A.Prefix(t.log, p)).store;
    ReplayNeverHalts(A.Prefix(t.log, p));
    assert Follows(t.replicas[p], Replay(A.Prefix(t.log, p)));
    HasVersionIffRead(t.replicas[p].store, key, timestamp);
    if key in Replay(t.log.agreed[..i]).store {
      ReadSettlesAtIndex(t.log.agreed, i, t.log.seen[p]);
      FollowerReadsTheSame(t.replicas[p].store, replayed, key, timestamp);
    }
  }
}
