/**
 What the store of a tablet holds and what its clients are told, in terms of the entries of the log:
 which writes and reads were delivered, at which indices, and at which times.
*/
module TabletAnswers {
  import opened Wrappers
  import opened Entries
  import opened KVStores
  import opened ClientRequests
  import opened Tablet
  import A = AgreedLogs

  // ----- Logs that replay without failing -----

  ghost predicate Passes(entries: seq<Entry>) {
    !Replay(entries).halted
  }

  lemma PassesNext(entries: seq<Entry>, n: nat)
    requires |entries| == n + 1
    ensures entries == entries[..n] + [entries[n]]
    ensures Replay(entries) == OnEntry(Replay(entries[..n]), n, entries[n])
    ensures Passes(entries) ==> Passes(entries[..n])
  {
    assert entries == entries[..n + 1];
    ReplayNext(entries, n);
  }

  lemma {:induction false} PassingStoreIsValid(entries: seq<Entry>)
    ensures ValidStore(Replay(entries).store)
    decreases |entries|
  {
    if entries != [] {
      var n := |entries| - 1;
      PassingStoreIsValid(entries[..n]);
      PassesNext(entries, n);
      StoreStaysValid(Replay(entries[..n]), n, entries[n]);
    }
  }

  // ----- Which index a request id stands for -----

  ghost predicate IsFirst(entries: seq<Entry>, id: string, i: nat) {
    IsDelivered(entries, id, i) && forall j: nat :: j < i ==> !IsDelivered(entries, id, j)
  }

  ghost predicate IsDelivered(entries: seq<Entry>, id: string, i: nat) {
    i < |entries| && IsRequest(entries[i]) && entries[i].requestId == id
  }

  /** Of whatever log, lawful or not, a replica that is up keeps the first index of each request id. */
  lemma {:induction false} ReplayKeepsFirstIndex(entries: seq<Entry>, id: string)
    requires Passes(entries)
    ensures id in Replay(entries).requestIds <==> exists i: nat :: IsDelivered(entries, id, i)
    ensures id in Replay(entries).requestIds ==> IsFirst(entries, id, Replay(entries).requestIds[id])
    decreases |entries|
  {
    if entries != [] {
      var n := |entries| - 1;
      var before, e := entries[..n], entries[n];
      PassesNext(entries, n);
      ReplayKeepsFirstIndex(before, id);
      forall i: nat
        ensures IsDelivered(entries, id, i)
                <==> IsDelivered(before, id, i) || (i == n && IsRequest(e) && e.requestId == id)
      {
      }
      if IsRequest(e) && e.requestId == id {
        assert IsDelivered(entries, id, n);
      }
    }
  }

  // ----- What is read -----

  ghost predicate IsWrite(entries: seq<Entry>, key: string, i: nat) {
    i < |entries| && entries[i].Write? && entries[i].key == key
  }

  ghost predicate IsWriteBy(entries: seq<Entry>, key: string, timestamp: nat, i: nat) {
    IsWrite(entries, key, i) && entries[i].timestamp <= timestamp
  }

  ghost predicate IsLastWriteBy(entries: seq<Entry>, key: string, timestamp: nat, i: nat) {
    && IsWriteBy(entries, key, timestamp, i)
    && forall j: nat :: i < j ==> !IsWriteBy(entries, key, timestamp, j)
  }

  /** The value is that of the last write of the key at or before the time, or there is no such write. */
  ghost predicate ReadsAs(entries: seq<Entry>, key: string, timestamp: nat, value: Option<string>) {
    if value.Some? then
      exists i: nat :: IsLastWriteBy(entries, key, timestamp, i) && entries[i].value == value.value
    else
      forall i: nat :: !IsWriteBy(entries, key, timestamp, i)
  }

  lemma OtherEntryReadsAs(entries: seq<Entry>, e: Entry, key: string, timestamp: nat, value: Option<string>)
    requires ReadsAs(entries, key, timestamp, value)
    requires !(e.Write? && e.key == key && e.timestamp <= timestamp)
    ensures ReadsAs(entries + [e], key, timestamp, value)
  {
    var entries' := entries + [e];
    forall i: nat
      ensures IsWriteBy(entries', key, timestamp, i) <==> IsWriteBy(entries, key, timestamp, i)
    {
    }
    if value.Some? {
      var i: nat :| IsLastWriteBy(entries, key, timestamp, i) && entries[i].value == value.value;
      assert IsLastWriteBy(entries', key, timestamp, i) && entries'[i] == entries[i];
    }
  }

  lemma WriteReadsAs(entries: seq<Entry>, e: Entry, timestamp: nat)
    requires e.Write? && e.timestamp <= timestamp
    ensures ReadsAs(entries + [e], e.key, timestamp, Some(e.value))
  {
    assert IsLastWriteBy(entries + [e], e.key, timestamp, |entries|);
  }

  /** A replica that has replayed a log reads the last write of a key by the time that is asked for. */
  lemma {:induction false} ReplayReadsLastWrite(entries: seq<Entry>, key: string, timestamp: nat)
    requires Passes(entries)
    ensures ReadsAs(entries, key, timestamp, ReadValue(Replay(entries).store, key, timestamp))
    decreases |entries|
  {
    if entries != [] {
      var n := |entries| - 1;
      var before, e := entries[..n], entries[n];
      PassesNext(entries, n);
      ReplayReadsLastWrite(before, key, timestamp);
      PassingStoreIsValid(before);
      var value := ReadValue(Replay(before).store, key, timestamp);
      if e.Read? {
        ReadChangesNoValue(Replay(before).store, e.key, e.timestamp, key, timestamp);
        OtherEntryReadsAs(before, e, key, timestamp, value);
      } else if e.Write? {
        WriteIsReadBack(Replay(before).store, e.key, e.value, e.timestamp, key, timestamp);
        if e.key == key && e.timestamp <= timestamp {
          WriteReadsAs(before, e, timestamp);
        } else {
          OtherEntryReadsAs(before, e, key, timestamp, value);
        }
      } else {
        OtherEntryReadsAs(before, e, key, timestamp, value);
      }
    }
  }

  /** It knows a key exactly when the key was written. */
  lemma {:induction false} ReplayHasWrittenKeys(entries: seq<Entry>, key: string)
    requires Passes(entries)
    ensures key in Replay(entries).store <==> exists i: nat :: IsWrite(entries, key, i)
    decreases |entries|
  {
    if entries != [] {
      var n := |entries| - 1;
      var before, e := entries[..n], entries[n];
      PassesNext(entries, n);
      ReplayHasWrittenKeys(before, key);
      forall i: nat
        ensures IsWrite(entries, key, i) <==> IsWrite(before, key, i) || (i == n && e.Write? && e.key == key)
      {
      }
      if e.Write? && e.key == key {
        assert IsWrite(entries, key, n);
      }
    }
  }

  // ----- What may be written -----

  /** A write of the key, or a read that found a write of it. */
  ghost predicate IsAccess(entries: seq<Entry>, key: string, i: nat) {
    && i < |entries|
    && (IsWrite(entries, key, i)
        || (entries[i].Read? && entries[i].key == key
            && exists j: nat :: j < i && IsWriteBy(entries, key, entries[i].timestamp, j)))
  }

  ghost predicate IsLastAccess(entries: seq<Entry>, key: string, time: nat) {
    && (exists i: nat :: IsAccess(entries, key, i) && entries[i].timestamp == time)
    && forall i: nat :: IsAccess(entries, key, i) ==> entries[i].timestamp <= time
  }

  lemma AccessIsLocal(entries: seq<Entry>, n: nat, key: string)
    requires n <= |entries|
    ensures forall i: nat :: i < n ==> (IsAccess(entries, key, i) <==> IsAccess(entries[..n], key, i))
  {
    forall i: nat | i < n
      ensures IsAccess(entries, key, i) <==> IsAccess(entries[..n], key, i)
    {
      assert entries[..n][i] == entries[i];
      forall t: nat, j: nat | j < i
        ensures IsWriteBy(entries, key, t, j) <==> IsWriteBy(entries[..n], key, t, j)
      {
      }
    }
  }

  lemma AccessOfPrefix(entries: seq<Entry>, e: Entry, key: string)
    ensures forall i: nat :: i < |entries| ==> (IsAccess(entries + [e], key, i) <==> IsAccess(entries, key, i))
  {
    AccessIsLocal(entries + [e], |entries|, key);
    assert (entries + [e])[..|entries|] == entries;
  }

  lemma NoAccess(entries: seq<Entry>, e: Entry, key: string, time: nat)
    requires IsLastAccess(entries, key, time) && !IsAccess(entries + [e], key, |entries|)
    ensures IsLastAccess(entries + [e], key, time)
  {
    AccessOfPrefix(entries, e, key);
    var i: nat :| IsAccess(entries, key, i) && entries[i].timestamp == time;
    assert IsAccess(entries + [e], key, i) && (entries + [e])[i] == entries[i];
    forall j: nat | IsAccess(entries + [e], key, j)
      ensures (entries + [e])[j].timestamp <= time
    {
      assert IsAccess(entries, key, j);
    }
  }

  lemma LaterAccess(entries: seq<Entry>, e: Entry, key: string, time: nat)
    requires IsAccess(entries + [e], key, |entries|) && (e.Read? || e.Write?) && time <= e.timestamp
    requires forall i: nat :: IsAccess(entries, key, i) ==> entries[i].timestamp <= time
    ensures IsLastAccess(entries + [e], key, e.timestamp)
  {
    AccessOfPrefix(entries, e, key);
    assert (entries + [e])[|entries|] == e;
    forall j: nat | IsAccess(entries + [e], key, j)
      ensures (entries + [e])[j].timestamp <= e.timestamp
    {
      assert j < |entries| ==> IsAccess(entries, key, j);
    }
  }

  lemma EarlierAccess(entries: seq<Entry>, e: Entry, key: string, time: nat)
    requires IsLastAccess(entries, key, time) && (e.Read? || e.Write?) && e.timestamp <= time
    ensures IsLastAccess(entries + [e], key, time)
  {
    AccessOfPrefix(entries, e, key);
    var i: nat :| IsAccess(entries, key, i) && entries[i].timestamp == time;
    assert IsAccess(entries + [e], key, i) && (entries + [e])[i] == entries[i];
    forall j: nat | IsAccess(entries + [e], key, j)
      ensures (entries + [e])[j].timestamp <= time
    {
      assert j < |entries| ==> IsAccess(entries, key, j);
    }
  }

  lemma ReadIsAccessIffFound(entries: seq<Entry>, e: Entry, key: string)
    requires Passes(entries) && e.Read?
    ensures IsAccess(entries + [e], key, |entries|)
            <==> e.key == key && ReadValue(Replay(entries).store, key, e.timestamp).Some?
  {
    var entries' := entries + [e];
    ReplayReadsLastWrite(entries, key, e.timestamp);
    forall j: nat | j < |entries|
      ensures IsWriteBy(entries', key, e.timestamp, j) <==> IsWriteBy(entries, key, e.timestamp, j)
    {
    }
  }

  lemma {:induction false} ReplayKeepsLastAccess(entries: seq<Entry>, key: string)
    requires Passes(entries) && key in Replay(entries).store
    ensures IsLastAccess(entries, key, Replay(entries).store[key].lat)
    decreases |entries|
  {
    if entries == [] {
      assert false;
    } else {
      var n := |entries| - 1;
      var before, e := entries[..n], entries[n];
      PassesNext(entries, n);
      if key in Replay(before).store {
        ReplayKeepsLastAccess(before, key);
      }
      NextKeepsLastAccess(before, e, key);
    }
  }

  lemma NothingAccessed(entries: seq<Entry>, key: string)
    requires Passes(entries) && key !in Replay(entries).store
    ensures forall i: nat :: !IsAccess(entries, key, i)
  {
    ReplayHasWrittenKeys(entries, key);
    forall i: nat, t: nat
      ensures !IsWriteBy(entries, key, t, i)
    {
      assert !IsWrite(entries, key, i);
    }
  }

  lemma NextKeepsLastAccess(entries: seq<Entry>, e: Entry, key: string)
    requires Passes(entries) && !OnEntry(Replay(entries), |entries|, e).halted
    requires key in Replay(entries).store ==> IsLastAccess(entries, key, Replay(entries).store[key].lat)
    requires key in OnEntry(Replay(entries), |entries|, e).store
    ensures IsLastAccess(entries + [e], key, OnEntry(Replay(entries), |entries|, e).store[key].lat)
  {
    var store := Replay(entries).store;
    if e.Read? {
      ReadIsAccessIffFound(entries, e, key);
      if e.key != key || ReadValue(store, key, e.timestamp).None? {
        NoAccess(entries, e, key, store[key].lat);
      } else if e.timestamp > store[key].lat {
        LaterAccess(entries, e, key, store[key].lat);
      } else {
        EarlierAccess(entries, e, key, store[key].lat);
      }
    } else if e.Write? && e.key == key {
      if key in store {
        LaterAccess(entries, e, key, store[key].lat);
      } else {
        NothingAccessed(entries, key);
        LaterAccess(entries, e, key, 0);
      }
    } else {
      NoAccess(entries, e, key, store[key].lat);
    }
  }

  /** A key can be written at a time exactly when everything that accessed it is earlier. */
  lemma CanWriteIffAfterAccesses(entries: seq<Entry>, key: string, timestamp: nat)
    requires Passes(entries)
    ensures CanWrite(Replay(entries).store, key, timestamp)
            <==> forall i: nat :: IsAccess(entries, key, i) ==> entries[i].timestamp < timestamp
  {
    if key in Replay(entries).store {
      ReplayKeepsLastAccess(entries, key);
    } else {
      NothingAccessed(entries, key);
    }
  }

  /** The k-th entry is no write, or comes after all that accessed its key. */
  ghost predicate IsInTime(entries: seq<Entry>, k: nat)
    requires k < |entries|
  {
    entries[k].Write? ==>
      forall i: nat :: i < k && IsAccess(entries, entries[k].key, i) ==> entries[i].timestamp < entries[k].timestamp
  }

  lemma InTimeIff(entries: seq<Entry>, k: nat)
    requires k < |entries| && Passes(entries[..k])
    ensures IsInTime(entries, k) <==> !OnEntry(Replay(entries[..k]), k, entries[k]).halted
  {
    if entries[k].Write? {
      CanWriteIffAfterAccesses(entries[..k], entries[k].key, entries[k].timestamp);
      AccessIsLocal(entries, k, entries[k].key);
      assert forall i: nat :: i < k ==> entries[..k][i] == entries[i];
    }
  }

  lemma InTimeIsLocal(entries: seq<Entry>, n: nat, k: nat)
    requires k < n <= |entries|
    ensures IsInTime(entries, k) <==> IsInTime(entries[..n], k)
  {
    assert forall i: nat :: i < n ==> entries[..n][i] == entries[i];
    if entries[k].Write? {
      AccessIsLocal(entries, n, entries[k].key);
    }
  }

  /** Any log replays without failing exactly if each of its writes is in time. */
  lemma {:induction false} PassesIffInTime(entries: seq<Entry>)
    ensures Passes(entries) <==> forall k: nat :: k < |entries| ==> IsInTime(entries, k)
    decreases |entries|
  {
    if entries != [] {
      var n := |entries| - 1;
      PassesNext(entries, n);
      PassesIffInTime(entries[..n]);
      forall k: nat | k < n
        ensures IsInTime(entries, k) <==> IsInTime(entries[..n], k)
      {
        InTimeIsLocal(entries, n, k);
      }
      if Passes(entries[..n]) {
        InTimeIff(entries, n);
      }
    }
  }

  /** What makes the k-th entry lawful: its id is new, and a write comes after all that accessed its key. */
  ghost predicate IsLawfulAt(entries: seq<Entry>, k: nat)
    requires k < |entries|
  {
    && IsRequest(entries[k]) && IsInTime(entries, k)
    && forall i: nat :: i < k && IsRequest(entries[i]) ==> entries[i].requestId != entries[k].requestId
  }

  lemma MayProposeIff(entries: seq<Entry>, k: nat)
    requires k < |entries| && Lawful(entries[..k])
    ensures MayPropose(entries[..k], entries[k]) <==> IsLawfulAt(entries, k)
  {
    var before, e := entries[..k], entries[k];
    if IsRequest(e) {
      ReplayIsExact(before);
      assert forall i: nat :: i < k ==> before[i] == entries[i];
      assert e.requestId !in Replay(before).requestIds
             <==> forall i: nat :: i < k && IsRequest(entries[i]) ==> entries[i].requestId != e.requestId;
      ReplayNeverHalts(before);
      InTimeIff(entries, k);
    }
  }

  lemma LawfulNext(entries: seq<Entry>, n: nat)
    requires |entries| == n + 1
    ensures Lawful(entries) <==> Lawful(entries[..n]) && MayPropose(entries[..n], entries[n])
  {
    if Lawful(entries) {
      LawfulPrefix(entries, n);
    }
    if Lawful(entries[..n]) && MayPropose(entries[..n], entries[n]) {
      forall i | 0 <= i < |entries|
        ensures MayPropose(entries[..i], entries[i])
      {
        if i < n {
          assert entries[..n][..i] == entries[..i] && MayPropose(entries[..n][..i], entries[..n][i]);
        }
      }
    }
  }

  lemma LawfulAtIsLocal(entries: seq<Entry>, n: nat, k: nat)
    requires k < n <= |entries|
    ensures IsLawfulAt(entries, k) <==> IsLawfulAt(entries[..n], k)
  {
    assert forall i: nat :: i < n ==> entries[..n][i] == entries[i];
    InTimeIsLocal(entries, n, k);
  }

  /** The logs that can come to be agreed, as a condition on their entries alone. */
  lemma {:induction false} LawfulIff(entries: seq<Entry>)
    ensures Lawful(entries) <==> forall k: nat :: k < |entries| ==> IsLawfulAt(entries, k)
    decreases |entries|
  {
    if entries != [] {
      var n := |entries| - 1;
      var before := entries[..n];
      LawfulIff(before);
      LawfulNext(entries, n);
      if Lawful(before) {
        MayProposeIff(entries, n);
      }
      forall k: nat | k < n
        ensures IsLawfulAt(entries, k) <==> IsLawfulAt(before, k)
      {
        LawfulAtIsLocal(entries, n, k);
      }
    }
  }

  // ----- What clients are told -----

  /** The response is the value of the last write of the key by the time, or an error if there is none. */
  ghost predicate TellsValue(entries: seq<Entry>, key: string, timestamp: nat, response: Response) {
    if response.Success? then response.value.Some? && ReadsAs(entries, key, timestamp, response.value)
    else ReadsAs(entries, key, timestamp, None)
  }

  /** Answering a READ that is at index i, having delivered these entries. */
  ghost predicate TellsRead(entries: seq<Entry>, i: nat, response: Response)
    requires i < |entries| && entries[i].Read?
  {
    var (key, timestamp) := (entries[i].key, entries[i].timestamp);
    && TellsValue(entries, key, timestamp, response)
    && ((exists j: nat :: j < i && IsWrite(entries, key, j)) ==> TellsValue(entries[..i], key, timestamp, response))
  }

  /** What a task does whose request has been delivered, at index i. A READ of a WRITE's id reads no key. */
  ghost predicate AnswersDelivered(entries: seq<Entry>, i: nat, kind: RequestType, action: Action)
    requires i < |entries|
  {
    match kind
    case UNSET => action == Fail
    case WRITE => action == Respond(Success(None))
    case READ =>
      && action.Respond?
      && if entries[i].Read? then TellsRead(entries, i, action.response)
         else TellsValue(entries, "", 0, action.response)
  }

  ghost predicate IsLate(store: Store, request: Request) {
    request.kind == WRITE && request.key in store && request.timestamp <= store[request.key].lat
  }

  ghost predicate Asks(e: Entry, request: Request) {
    && IsRequest(e) && (e.Write? <==> request.kind == WRITE) && (e.Read? <==> request.kind == READ)
    && e.requestId == request.id && e.key == request.key && e.timestamp == request.timestamp
    && (e.Write? ==> e.value == request.value)
  }

  /** What a task does whose request has not been delivered. */
  ghost predicate ProposesUndelivered(store: Store, request: Request, retries: nat, action: Action) {
    if retries == RETRY_LIMIT || IsLate(store, request) then action == Respond(Error)
    else if request.kind == UNSET then action == Fail
    else action.ProposeAndWait? && Asks(action.entry, request)
  }

  ghost predicate RightAction(entries: seq<Entry>, store: Store, request: Request, retries: nat, action: Action) {
    && (forall i: nat :: IsDelivered(entries, request.id, i) ==> AnswersDelivered(entries, i, request.kind, action))
    && ((forall i: nat :: !IsDelivered(entries, request.id, i)) ==>
          ProposesUndelivered(store, request, retries, action))
  }

  lemma FollowerReads(entries: seq<Entry>, r: Replica, key: string, timestamp: nat)
    requires Lawful(entries) && Follows(r, Replay(entries))
    ensures ReadsAs(entries, key, timestamp, ReadValue(r.store, key, timestamp))
  {
    ReplayNeverHalts(entries);
    ReplayReadsLastWrite(entries, key, timestamp);
    assert key in r.store.Keys <==> key in Replay(entries).store.Keys;
  }

  /** A READ of a key that was written before it reads what it read then. */
  lemma FollowerReadsOldValue(entries: seq<Entry>, r: Replica, i: nat)
    requires Lawful(entries) && Follows(r, Replay(entries)) && i < |entries| && entries[i].Read?
    requires exists j: nat :: j < i && IsWrite(entries, entries[i].key, j)
    ensures ReadsAs(entries[..i], entries[i].key, entries[i].timestamp,
                    ReadValue(r.store, entries[i].key, entries[i].timestamp))
  {
    var key, timestamp := entries[i].key, entries[i].timestamp;
    PrefixNeverHalts(entries, i);
    var j: nat :| j < i && IsWrite(entries, key, j);
    assert IsWrite(entries[..i], key, j);
    ReplayHasWrittenKeys(entries[..i], key);
    ReplayReadsLastWrite(entries[..i], key, timestamp);
    ReadSettlesAtIndex(entries, i, |entries|);
    assert entries[..|entries|] == entries;
    FollowerReadsTheSame(r.store, Replay(entries).store, key, timestamp);
  }

  lemma DeliveredReadIsAnswered(
    entries: seq<Entry>, r: Replica, request: Request, retries: nat, i: nat, action: Action)
    requires Lawful(entries) && Follows(r, Replay(entries)) && i < |entries| && request.kind == READ
    requires action == TaskRun(r, Some(entries[i]), request, retries).0
    ensures AnswersDelivered(entries, i, READ, action)
  {
    var (key, timestamp) := ReadPart(entries[i]);
    FollowerReads(entries, r, key, timestamp);
    if entries[i].Read? && exists j: nat :: j < i && IsWrite(entries, key, j) {
      FollowerReadsOldValue(entries, r, i);
    }
  }

  /** Whatever a task does is right, if it finds the entry that has its request's id. */
  lemma TaskIsRight(entries: seq<Entry>, r: Replica, found: Option<Entry>, request: Request, retries: nat)
    requires Lawful(entries) && Follows(r, Replay(entries))
    requires found.None? ==> forall i: nat :: !IsDelivered(entries, request.id, i)
    requires found.Some? ==> exists i: nat :: IsDelivered(entries, request.id, i) && found.value == entries[i]
    ensures RightAction(entries, r.store, request, retries, TaskRun(r, found, request, retries).0)
  {
    var action := TaskRun(r, found, request, retries).0;
    forall i: nat | IsDelivered(entries, request.id, i)
      ensures AnswersDelivered(entries, i, request.kind, action)
    {
      var j: nat :| IsDelivered(entries, request.id, j) && found.value == entries[j];
      AtMostOnce(entries, i, j);
      if request.kind == READ {
        DeliveredReadIsAnswered(entries, r, request, retries, i, action);
      }
    }
  }

  /** A replica finds a request's entry exactly when it has delivered it. */
  lemma FoundIsDelivered(n: nat, t: TabletGroup, p: nat, id: string)
    requires Reached(n, t) && p < n && p < |t.replicas| && !t.replicas[p].halted
    ensures A.WellFormed(t.log) && p < |t.log.seen|
    ensures
      var entries, found := A.Prefix(t.log, p), FoundEntry(t, p, id);
      && (found.None? ==> forall i: nat :: !IsDelivered(entries, id, i))
      && (found.Some? ==> exists i: nat :: IsDelivered(entries, id, i) && found.value == entries[i])
  {
    AgreedIsLawful(n, t);
    var entries := A.Prefix(t.log, p);
    assert Follows(t.replicas[p], Replay(entries));
    ReplayIsExact(entries);
    var ids := t.replicas[p].requestIds;
    if id in ids {
      assert IsDelivered(entries, id, ids[id]);
    }
  }

  /**
   In every run, whatever a task does at a replica that is up is right: it never tells of success before
   the request is delivered; it answers a delivered WRITE with success; and a delivered READ with the last
   value written by its time, of those that the replica has delivered, and if the key had been written
   before the READ, of those before the READ.
  */
  lemma TasksAreRight(n: nat, t: TabletGroup, p: nat, request: Request, retries: nat)
    requires Reached(n, t) && p < n && p < |t.replicas| && !t.replicas[p].halted
    ensures A.WellFormed(t.log) && p < |t.log.seen|
    ensures RightAction(A.Prefix(t.log, p), t.replicas[p].store, request, retries,
                        TaskRun(t.replicas[p], FoundEntry(t, p, request.id), request, retries).0)
  {
    AgreedIsLawful(n, t);
    FoundIsDelivered(n, t, p, request.id);
    assert Follows(t.replicas[p], Replay(A.Prefix(t.log, p)));
    TaskIsRight(A.Prefix(t.log, p), t.replicas[p], FoundEntry(t, p, request.id), request, retries);
  }

  /** Who is told of success has been served: the request is in the log, once. */
  lemma SuccessIsDelivered(
    entries: seq<Entry>, store: Store, request: Request, retries: nat, action: Action)
    requires Lawful(entries) && RightAction(entries, store, request, retries, action)
    requires action.Respond? && action.response.Success?
    ensures exists i: nat :: IsDelivered(entries, request.id, i)
    ensures forall i: nat, j: nat ::
      IsDelivered(entries, request.id, i) && IsDelivered(entries, request.id, j) ==> i == j
  {
    forall i: nat, j: nat | IsDelivered(entries, request.id, i) && IsDelivered(entries, request.id, j)
      ensures i == j
    {
      AtMostOnce(entries, i, j);
    }
  }
}
