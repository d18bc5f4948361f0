/**
 The multi-version store of a tablet. A key has a list of versions and the time of its last access;
 a write has to come after the last access, a read raises it.
*/
module KVStores {
  import opened Wrappers

  datatype Version = Version(timestamp: nat, value: string)

  datatype MultiVersionEntry = MultiVersionEntry(versions: seq<Version>, lat: nat)

  type Store = map<string, MultiVersionEntry>

  predicate IncreasingVersions(versions: seq<Version>) {
    forall i, j :: 0 <= i < j < |versions| ==> versions[i].timestamp < versions[j].timestamp
  }

  /** Versions are strictly increasing, and the last access is no earlier than the newest. */
  predicate ValidEntry(e: MultiVersionEntry) {
    && e.versions != []
    && IncreasingVersions(e.versions)
    && e.versions[|e.versions| - 1].timestamp <= e.lat
  }

  predicate ValidStore(store: Store) {
    forall key :: key in store ==> ValidEntry(store[key])
  }

  // ----- Operations on values -----

  /** "Should never be writing to the past." */
  predicate CanWrite(store: Store, key: string, timestamp: nat) {
    key in store ==> store[key].lat < timestamp
  }

  function AfterWrite(store: Store, key: string, value: string, timestamp: nat): Store {
    var versions := if key in store then store[key].versions else [];
    store[key := MultiVersionEntry(versions + [Version(timestamp, value)], timestamp)]
  }

  /** The latest version at or before a time. */
  function LatestAt(versions: seq<Version>, timestamp: nat): Option<string> {
    if versions == [] then None
    else
      var last := versions[|versions| - 1];
      if last.timestamp <= timestamp then Some(last.value) else LatestAt(versions[..|versions| - 1], timestamp)
  }

  function ReadValue(store: Store, key: string, timestamp: nat): Option<string> {
    if key in store then LatestAt(store[key].versions, timestamp) else None
  }

  /** A read that finds a version moves the last access forward, never back. */
  function AfterRead(store: Store, key: string, timestamp: nat): Store {
    if ReadValue(store, key, timestamp).Some? && timestamp > store[key].lat
    then store[key := store[key].(lat := timestamp)]
    else store
  }

  lemma {:induction false} LatestAtIs(versions: seq<Version>, timestamp: nat, n: nat)
    requires n <= |versions|
    requires forall i :: 0 <= i < n ==> versions[i].timestamp <= timestamp
    requires forall i :: n <= i < |versions| ==> versions[i].timestamp > timestamp
    ensures LatestAt(versions, timestamp) == if n == 0 then None else Some(versions[n - 1].value)
    decreases |versions|
  {
    if n < |versions| {
      LatestAtIs(versions[..|versions| - 1], timestamp, n);
    }
  }

  /** A value that was written is what is read from its time on, and no other reading changes. */
  lemma WriteIsReadBack(store: Store, key: string, value: string, timestamp: nat, k: string, t: nat)
    requires ValidStore(store) && CanWrite(store, key, timestamp)
    ensures ReadValue(AfterWrite(store, key, value, timestamp), k, t)
            == if k == key && timestamp <= t then Some(value) else ReadValue(store, k, t)
    ensures ValidStore(AfterWrite(store, key, value, timestamp))
  {
    if k == key {
      var versions := AfterWrite(store, key, value, timestamp)[key].versions;
      var before := if key in store then store[key].versions else [];
      assert versions == before + [Version(timestamp, value)] && versions[..|versions| - 1] == before;
      assert LatestAt(versions, t) == if timestamp <= t then Some(value) else LatestAt(before, t);
    }
  }

  /** Reading changes no later reading. */
  lemma ReadChangesNoValue(store: Store, key: string, timestamp: nat, k: string, t: nat)
    ensures ReadValue(AfterRead(store, key, timestamp), k, t) == ReadValue(store, k, t)
    ensures AfterRead(store, key, timestamp).Keys == store.Keys
  {
  }

  // ----- The class -----

  class KVStore {
    var mvkvs: Store

    ghost predicate Valid()
      reads this
    {
      ValidStore(mvkvs)
    }

    constructor ()
      ensures Valid() && mvkvs == map[]
    {
      mvkvs := map[];
    }

    /** Fails, changing nothing, exactly when the write is not after the last access. */
    method Write(key: string, value: string, timestamp: nat) returns (failed: bool)
      requires Valid()
      modifies this
      ensures Valid()
      ensures failed <==> !CanWrite(old(mvkvs), key, timestamp)
      ensures mvkvs == if failed then old(mvkvs) else AfterWrite(old(mvkvs), key, value, timestamp)
    {
      failed := false;
      assert [] + [Version(timestamp, value)] == [Version(timestamp, value)];
      if key !in mvkvs {
        mvkvs := mvkvs[key := MultiVersionEntry([Version(timestamp, value)], timestamp)];
      } else if !(mvkvs[key].lat < timestamp) {
        failed := true;
      } else {
        var e := mvkvs[key];
        mvkvs := mvkvs[key := MultiVersionEntry(e.versions + [Version(timestamp, value)], timestamp)];
      }
    }

    method Search(versions: seq<Version>, timestamp: nat) returns (start: nat)
      requires IncreasingVersions(versions)
      ensures start <= |versions|
      ensures LatestAt(versions, timestamp) == if start == 0 then None else Some(versions[start - 1].value)
    {
      start := 0;
      var end := |versions|;
      while start < end
        invariant 0 <= start <= end <= |versions|
        invariant forall i :: 0 <= i < start ==> versions[i].timestamp <= timestamp
        invariant forall i :: end <= i < |versions| ==> versions[i].timestamp > timestamp
      {
        var middle := (start + end) / 2;
        if versions[middle].timestamp <= timestamp {
          start := middle + 1;
        } else {
          end := middle;
        }
      }
      LatestAtIs(versions, timestamp, start);
    }

    method Read(key: string, timestamp: nat) returns (value: Option<string>)
      requires Valid()
      modifies this
      ensures Valid()
      ensures value == ReadValue(old(mvkvs), key, timestamp)
      ensures mvkvs == AfterRead(old(mvkvs), key, timestamp)
    {
      value := None;
      if key in mvkvs {
        var versions := mvkvs[key].versions;
        var start := Search(versions, timestamp);
        if start != 0 {
          if timestamp > mvkvs[key].lat {
            mvkvs := mvkvs[key := mvkvs[key].(lat := timestamp)];
          }
          value := Some(versions[start - 1].value);
        }
      }
    }

    method ReadLat(key: string) returns (lat: Option<nat>)
      ensures lat == if key in mvkvs then Some(mvkvs[key].lat) else None
    {
      if key in mvkvs {
        lat := Some(mvkvs[key].lat);
      } else {
        lat := None;
      }
    }
  }

  // ----- Snapshots -----

  datatype Operation = WriteOp(key: string, value: string, timestamp: nat) | ReadOp(key: string, timestamp: nat)

  predicate CanRun(store: Store, op: Operation) {
    op.WriteOp? ==> CanWrite(store, op.key, op.timestamp)
  }

  function After(store: Store, op: Operation): Store {
    match op
    case WriteOp(key, value, timestamp) => AfterWrite(store, key, value, timestamp)
    case ReadOp(key, timestamp) => AfterRead(store, key, timestamp)
  }

  /** The operations can run one after the other without a failed assertion. */
  predicate CanRunAll(store: Store, ops: seq<Operation>)
    decreases |ops|
  {
    ops == [] || (CanRun(store, ops[0]) && CanRunAll(After(store, ops[0]), ops[1..]))
  }

  function AfterAll(store: Store, ops: seq<Operation>): Store
    decreases |ops|
  {
    if ops == [] then store else AfterAll(After(store, ops[0]), ops[1..])
  }

  // What holds of a key at a time from the moment it was read there: later writes are later.
  predicate Settled(store: Store, key: string, timestamp: nat) {
    && key in store
    && ValidEntry(store[key])
    && (ReadValue(store, key, timestamp).Some? ==> timestamp <= store[key].lat)
  }

  lemma NothingBefore(versions: seq<Version>, timestamp: nat)
    requires versions != [] && IncreasingVersions(versions) && LatestAt(versions, timestamp).None?
    ensures timestamp < versions[0].timestamp
  {
    if |versions| > 1 {
      NothingBefore(versions[..|versions| - 1], timestamp);
    }
  }

  lemma ReadSettles(store: Store, key: string, timestamp: nat)
    requires key in store && ValidEntry(store[key])
    ensures Settled(AfterRead(store, key, timestamp), key, timestamp)
    ensures ReadValue(AfterRead(store, key, timestamp), key, timestamp) == ReadValue(store, key, timestamp)
  {
  }

  lemma StaysSettled(store: Store, key: string, timestamp: nat, op: Operation)
    requires Settled(store, key, timestamp) && CanRun(store, op)
    ensures Settled(After(store, op), key, timestamp)
    ensures ReadValue(After(store, op), key, timestamp) == ReadValue(store, key, timestamp)
  {
    if op.WriteOp? && op.key == key {
      var versions := store[key].versions;
      var versions' := versions + [Version(op.timestamp, op.value)];
      if LatestAt(versions, timestamp).None? {
        NothingBefore(versions, timestamp);
      }
      assert versions'[..|versions'| - 1] == versions;
    }
  }

  lemma {:induction false} SettledForGood(store: Store, key: string, timestamp: nat, ops: seq<Operation>)
    requires Settled(store, key, timestamp) && CanRunAll(store, ops)
    ensures ReadValue(AfterAll(store, ops), key, timestamp) == ReadValue(store, key, timestamp)
    decreases |ops|
  {
    if ops != [] {
      StaysSettled(store, key, timestamp, ops[0]);
      SettledForGood(After(store, ops[0]), key, timestamp, ops[1..]);
    }
  }

  /** The read gives the same result again after the operations, unless one of them fails. */
  predicate Repeatable(store: Store, key: string, timestamp: nat, ops: seq<Operation>) {
    var after := AfterRead(store, key, timestamp);
    CanRunAll(after, ops) ==> ReadValue(AfterAll(after, ops), key, timestamp) == ReadValue(store, key, timestamp)
  }

  /** A performed read is repeatable after whatever happens, exactly when the key existed at the time. */
  lemma SnapshotReadIffKeyExists(store: Store, key: string, timestamp: nat)
    requires ValidStore(store)
    ensures (forall ops :: Repeatable(store, key, timestamp, ops)) <==> key in store
  {
    var after := AfterRead(store, key, timestamp);
    if key in store {
      ReadSettles(store, key, timestamp);
      forall ops
        ensures Repeatable(store, key, timestamp, ops)
      {
        if CanRunAll(after, ops) {
          SettledForGood(after, key, timestamp, ops);
        }
      }
    } else {
      var op := WriteOp(key, "", timestamp);
      var ops := [op];
      assert ops[1..] == [];
      assert CanRunAll(after, ops);
      assert AfterAll(after, ops) == After(after, op);
      assert ReadValue(After(after, op), key, timestamp) == Some("");
      assert !Repeatable(store, key, timestamp, ops);
    }
  }
}
