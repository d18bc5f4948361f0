/**
 Client requests at one tablet replica: the callbacks for delivered reads and writes, the map of
 request ids already satisfied, and the task that proposes a request until it is.
*/
module ClientRequests {
  import opened Wrappers
  import opened Entries
  import opened PaxosLogs
  import opened KVStores
  import AsyncQueues

  const RETRY_LIMIT := 3
  const WAIT_FOR_PAXOS := 100

  datatype RequestType = UNSET | READ | WRITE

  datatype Request = Request(id: string, kind: RequestType, key: string, value: string, timestamp: nat)

  datatype Response = Success(value: Option<string>) | Error

  // How one run of a task ends: with a response, with a proposal after which it runs again, or
  // with a failed assertion.
  datatype Action = Respond(response: Response) | ProposeAndWait(entry: Entry) | Fail

  // ----- A replica -----

  datatype Replica = Replica(requestIds: map<string, nat>, store: Store, halted: bool)

  const INIT_REPLICA := Replica(map[], map[], false)

  function InsertId(ids: map<string, nat>, id: string, index: nat): map<string, nat> {
    if id in ids then ids else ids[id := index]
  }

  /** The callbacks. A failed assertion halts the replica: nothing is delivered after it. */
  function OnEntry(r: Replica, index: nat, entry: Entry): Replica {
    if r.halted then r
    else
      match entry
      case Read(id, key, timestamp) =>
        r.(requestIds := InsertId(r.requestIds, id, index), store := AfterRead(r.store, key, timestamp))
      case Write(id, key, value, timestamp) =>
        if CanWrite(r.store, key, timestamp)
        then r.(requestIds := InsertId(r.requestIds, id, index), store := AfterWrite(r.store, key, value, timestamp))
        else r.(requestIds := InsertId(r.requestIds, id, index), halted := true)
      case _ => r
  }

  /** The entries of a log read as `entry.read()`: of any other kind of entry that is the default. */
  function ReadPart(entry: Entry): (string, nat) {
    if entry.Read? then (entry.key, entry.timestamp) else ("", 0)
  }

  // ----- The task -----

  function EntryFor(request: Request): Entry
    requires request.kind != UNSET
  {
    if request.kind == WRITE then Write(request.id, request.key, request.value, request.timestamp)
    else Read(request.id, request.key, request.timestamp)
  }

  /** One run of a task, given the entry at the request's index if the request is in the map. */
  function TaskRun(r: Replica, found: Option<Entry>, request: Request, retries: nat): (Action, Store) {
    if found.Some? then
      match request.kind
      case READ =>
        var (key, timestamp) := ReadPart(found.value);
        var value := ReadValue(r.store, key, timestamp);
        (Respond(if value.Some? then Success(value) else Error), AfterRead(r.store, key, timestamp))
      case WRITE => (Respond(Success(None)), r.store)
      case UNSET => (Fail, r.store)
    else if retries == RETRY_LIMIT then
      (Respond(Error), r.store)
    else if request.kind == WRITE && !CanWrite(r.store, request.key, request.timestamp) then
      (Respond(Error), r.store)
    else if request.kind == UNSET then
      (Fail, r.store)
    else
      (ProposeAndWait(EntryFor(request)), r.store)
  }

  class RequestTask {
    const request: Request
    var retryCount: nat

    constructor (request: Request)
      ensures this.request == request && retryCount == 0
    {
      this.request, retryCount := request, 0;
    }
  }

  class ClientRequestHandler {
    const paxosLog: PaxosLog
    const kvstore: KVStore
    var requestIds: map<string, nat>

    ghost predicate Valid()
      reads this, paxosLog, kvstore
    {
      kvstore.Valid() && forall id :: id in requestIds ==> requestIds[id] in paxosLog.log
    }

    ghost function State(): Replica
      reads this, kvstore
    {
      Replica(requestIds, kvstore.mvkvs, false)
    }

    constructor (paxosLog: PaxosLog, kvstore: KVStore)
      requires kvstore.Valid() && kvstore.mvkvs == map[]
      ensures Valid() && State() == INIT_REPLICA
      ensures this.paxosLog == paxosLog && this.kvstore == kvstore
    {
      this.paxosLog, this.kvstore, requestIds := paxosLog, kvstore, map[];
    }

    method OnReadEntry(index: nat, id: string, key: string, timestamp: nat)
      requires Valid() && index in paxosLog.log
      modifies this, kvstore
      ensures Valid()
      ensures State() == OnEntry(old(State()), index, Read(id, key, timestamp))
    {
      if id !in requestIds {
        requestIds := requestIds[id := index];
      }
      var _ := kvstore.Read(key, timestamp);
    }

    method OnWriteEntry(index: nat, id: string, key: string, value: string, timestamp: nat) returns (failed: bool)
      requires Valid() && index in paxosLog.log
      modifies this, kvstore
      ensures Valid()
      ensures State().(halted := failed) == OnEntry(old(State()), index, Write(id, key, value, timestamp))
    {
      if id !in requestIds {
        requestIds := requestIds[id := index];
      }
      failed := kvstore.Write(key, value, timestamp);
    }

    method RunTask(task: RequestTask) returns (action: Action, wait: int)
      requires Valid()
      modifies task, kvstore
      ensures Valid()
      ensures
        var request := task.request;
        var found := if request.id in requestIds then Some(paxosLog.log[requestIds[request.id]]) else None;
        (action, kvstore.mvkvs) == TaskRun(old(State()), found, request, old(task.retryCount))
      ensures task.retryCount == old(task.retryCount) + if action.ProposeAndWait? then 1 else 0
      ensures wait == if action.ProposeAndWait? then WAIT_FOR_PAXOS else AsyncQueues.TERMINATE
    {
      var request := task.request;
      wait := AsyncQueues.TERMINATE;
      if request.id in requestIds {
        if request.kind == READ {
          var entry := paxosLog.GetEntry(requestIds[request.id]);
          var (key, timestamp) := ReadPart(entry.value);
          var value := kvstore.Read(key, timestamp);
          action := Respond(if value.Some? then Success(value) else Error);
        } else if request.kind == WRITE {
          action := Respond(Success(None));
        } else {
          action := Fail;
        }
        return;
      } else if task.retryCount == RETRY_LIMIT {
        action := Respond(Error);
        return;
      }
      if request.kind == WRITE {
        var lat := kvstore.ReadLat(request.key);
        if lat.Some? && request.timestamp <= lat.value {
          action := Respond(Error);
          return;
        }
      }
      if request.kind == UNSET {
        action := Fail;
        return;
      }
      action := ProposeAndWait(EntryFor(request));
      task.retryCount := task.retryCount + 1;
      wait := WAIT_FOR_PAXOS;
    }
  }

  // ----- A task from its first run to its last -----

  // What a task finds at one of its runs: the replica, and the entry at its request's index if any.
  datatype Glimpse = Glimpse(replica: Replica, found: Option<Entry>)

  /** The actions of a task that runs until it responds or fails, or the glimpses end. */
  function Actions(glimpses: seq<Glimpse>, request: Request, retries: nat): seq<Action> {
    if glimpses == [] then []
    else
      var action := TaskRun(glimpses[0].replica, glimpses[0].found, request, retries).0;
      if action.ProposeAndWait? then [action] + Actions(glimpses[1..], request, retries + 1) else [action]
  }

  /**
   Bounded retry: whatever it finds, a read or write task only proposes until its last run, at
   most RETRY_LIMIT times; if it is given enough runs it ends, with one response. Every proposal is
   the same entry.
  */
  lemma {:induction false} TaskEndsWithOneResponse(glimpses: seq<Glimpse>, request: Request, retries: nat)
    requires request.kind != UNSET && retries <= RETRY_LIMIT
    ensures
      var actions := Actions(glimpses, request, retries);
      && (forall i :: 0 <= i < |actions| - 1 ==> actions[i] == ProposeAndWait(EntryFor(request)))
      && (forall i :: 0 <= i < |actions| && actions[i].ProposeAndWait? ==> i < RETRY_LIMIT - retries)
      && (|glimpses| > RETRY_LIMIT - retries ==> actions != [] && actions[|actions| - 1].Respond?)
    decreases |glimpses|
  {
    if glimpses != [] {
      var action := TaskRun(glimpses[0].replica, glimpses[0].found, request, retries).0;
      if action.ProposeAndWait? {
        TaskEndsWithOneResponse(glimpses[1..], request, retries + 1);
      }
    }
  }
}
