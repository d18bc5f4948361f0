# A replicated database core, verified

This project models the core of a replicated key-value database in Dafny and proves what its layers
promise each other.

* **Paxos.** A log index is decided by one Paxos instance: every node is proposer, acceptor and
  learner. `SinglePaxosHandler.dfy` has the five handlers as methods of a class, proved against the
  functions of `PaxosNode.dfy`. `PaxosProtocol.dfy` puts n nodes and a bag of messages together:
  messages are lost and reordered, numbers collide and repeat. `PaxosInvariant.dfy` proves an
  inductive invariant, `PaxosAgreement.dfy` agreement, validity and one value per round.
  `PaxosRuns.dfy` builds runs, with numbers that the program can draw. `PaxosDisagreement.dfy` has
  those in which agreement fails, so that the condition for agreement is exact. `PaxosProgress.dfy`
  has those that lead on to a learned value, as long as a proposer can finish a round. With 32-bit
  numbers that can come to an end: `PaxosStuck.dfy` has a run after which nobody ever learns, and,
  for every state whose messages are lost, the exact condition for learning still being possible.
* **The log.** `PaxosLog.dfy` is the sparse log with its list of free indices and its in-order
  callbacks, `LogSyncer.dfy` the syncing between nodes, `MultiPaxosHandler.dfy` the dispatch to
  instances. `ReplicatedLog.dfy` joins instances, logs and syncing into one step system and proves
  that it refines `AgreedLog.dfy`: one log that only grows at its end, where a replica that has
  delivered j entries can propose for index j and no other. Hence a check made before proposing
  still holds when the entry is delivered. `ReplicaRuns.dfy` and `ReplicaProgress.dfy` go the other
  way: what is offered at the end of the agreed log can be taken through its Paxos instance, and a
  replica that lags can catch up, as long as the instances are open to it.
* **The tablet.** `KVStore.dfy` is the multi-version store, `ClientRequests.dfy` the callbacks and
  the retrying request task, `Tablet.dfy` a group of replicas over an agreed log.
  `TabletAnswers.dfy` says in terms of the delivered requests what a store holds and what clients
  are told. Answering a READ again can make a replica halt; `TabletHalting.dfy` says on which logs
  exactly. `TabletOnPaxos.dfy` puts the tablets on Paxos replicas, and `TabletHaltsOnPaxos.dfy`
  proves that the nodes can halt, and can differ from their logs, on the same logs exactly.
* **The key space.** `KeySpaceManager.dfy` and `SlaveKeySpaceManager.dfy` are the two halves of
  assigning tables to slave groups; `KeySpaceReplay.dfy` says which logs pass their assertions.
  `Handshake.dfy` is the system of masters and slave groups with its invariant,
  `KeySpaceSafety.dfy` what follows for every run, and `KeySpaceProgress.dfy` that from every
  reachable state every key can still come to be answered, if the replicas can agree on what they
  propose. `HandshakeOnPaxos.dfy` puts masters and slave groups on Paxos replicas. There
  `KeySpaceProgressOnPaxos.dfy` proves the same, if one master and one slave of each group can
  finish a round wherever they lack an entry; `KeySpaceStuckOnPaxos.dfy` shows that some such
  condition is needed.
* **The rest.** `Paths.dfy` is what all step systems share. `AsyncQueue.dfy` is the queue that
  drives all tasks, `PaxosConfig.dfy` the timeline of configurations.

Objects whose methods change their fields are classes. Their methods are proved against functions
on values, and the theorems are about those functions and the step systems made of them. Where a
lemma speaks of every run or of every reachable state, a run is a sequence of states, each a step
from the one before.

## Where the code and its documentation differ

The model follows the code; these differences are theorems.

* The comment at `src/paxos/SinglePaxosHandler.cc:93` promises the value with the highest proposal
  number. The loop never assigns its running maximum, so it takes the last promise that reports a
  value (`LiteralTakesLast`), and keeps the comment's promise exactly when that is the one with the
  highest number, unless its value was reported twice (`LiteralKeepsPromiseIff`,
  `LiteralBreaksPromise`). The protocol is parameterised by the rule. With the majority threshold
  the documented rule agrees for every group size, the loop as written agrees for groups of at most
  two servers and for no larger one (`MajorityAgreement`). The shipped constant is two
  (`src/utils.h:12`).
* `src/paxos/SinglePaxosHandler.h:71` promises ever greater proposal numbers, above 0. The code can
  repeat one, wrap around, or come to 0 (`ProposalNumberGrowsIff`). Agreement and validity survive
  this, and are proved for any numbers. Progress does not: the last number can be promised by all
  acceptors and never used, and the instance is then stuck (`InstanceCanGetStuck`).
* `src/slave/KVStore.h:23` promises repeatable snapshot reads if a key exists. A performed read is
  repeatable after every continuation exactly when the key existed (`SnapshotReadIffKeyExists`).
* Answering a READ that has been delivered reads the store again, outside the log. If the key did
  not exist at the READ's index, this can raise the last access at one replica only, and that
  replica then fails an assertion at a write that the other replicas take (`RereadCanHalt`). The
  agreed log decides: a replica can halt if and only if the log has a READ before its key existed
  and, after it, a write to the key at a time no later than the READ's, with the key existing by
  then (`HaltsIffEarlyReadRaises`, on Paxos nodes `NodeHaltsIffEarlyReadRaises`). The answer itself
  can then differ from the value as of the READ's index (`RereadReturnsTheOldValue`,
  `RereadCanDiffer`).
* The configuration timeline's assertion is stricter than the ascending order its comment asks for:
  a reconfiguration right after another one fails it, and so does one at or below the index of the
  first configuration (`ReplayPassesIffSpaced`).

## Model

| member | source | states |
|---|---|---|
| PaxosNode.LiteralTakesLast | src/paxos/SinglePaxosHandler.cc:96-105 | the choice loop as written takes the value of the last promise that reports an accepted value, whatever its number |
| PaxosNode.LiteralKeepsPromiseIff | src/paxos/SinglePaxosHandler.cc:92-105 | the loop takes a value reported with the highest number if the last report has it, and, unless the last report's value is reported with two numbers, only then |
| PaxosNode.LiteralBreaksPromise | src/paxos/SinglePaxosHandler.cc:93-105 | two promises for which the loop does not take the value with the highest number |
| PaxosNode.DocumentedTakesHighest | src/paxos/SinglePaxosHandler.cc:93-95 | the rule of the comment takes a value reported with the highest number, or the proposer's own if nothing was accepted |
| PaxosNode.ChoiceIsOwnOrReported | src/paxos/SinglePaxosHandler.cc:92-105 | either rule gives the proposer's own value or one that some promise reports as accepted |
| PaxosNode.ChoiceReachesBack | src/paxos/SinglePaxosHandler.cc:93-105 | what each rule needs of the promises so that the choice was accepted in round k or later: one such promise for the documented rule, all of them for the loop as written |
| PaxosNode.ProposalNumberGrowsIff | src/paxos/SinglePaxosHandler.cc:36-38 | exactly when a new proposal number is above the last one, and exactly when it is above 0, both against the promise of the header |
| PaxosNode.RolesAreSeparate | src/paxos/SinglePaxosHandler.cc:58-164 | a message for one role leaves the other two as they are, and no message changes what was proposed or the latest number |
| PaxosNode.RoundsAreSeparate | src/paxos/SinglePaxosHandler.cc:58-164 | a message of one number leaves the promises and the counts of all others as they are |
| PaxosNode.AcceptorAnswersIff | src/paxos/SinglePaxosHandler.cc:58-76 | an acceptor's number is the greatest it was asked for; it answers a Prepare exactly when that raises it, an Accept exactly when it does not lower it, and nothing changes otherwise |
| PaxosNode.PromiseAnswersIff | src/paxos/SinglePaxosHandler.cc:78-118 | exactly which promises fail an assertion, and that a promise sends Accept to all exactly when it completes a quorum |
| PaxosNode.WritesIffLearns | src/paxos/SinglePaxosHandler.cc:143-164 | a node writes exactly with the message that completes a round's count and makes it learn, and the value first heard in the round; no learn message does anything after that |
| SinglePaxosHandlers.SinglePaxosHandler.Propose | src/paxos/SinglePaxosHandler.cc:44-56 | a proposal under a reused number keeps the value and the promises that are there, and sends Prepare to all |
| SinglePaxosHandlers.SinglePaxosHandler.Prepare | src/paxos/SinglePaxosHandler.cc:58-76 | promises exactly the higher numbers, to the sender, with what was accepted last |
| SinglePaxosHandlers.SinglePaxosHandler.ChooseValue | src/paxos/SinglePaxosHandler.cc:96-105 | the loop computes the literal choice of the promises it was given, in order of arrival |
| SinglePaxosHandlers.SinglePaxosHandler.Promise | src/paxos/SinglePaxosHandler.cc:78-118 | counts promises up to the threshold, sends Accept once, on the promise that reaches it; says when an assertion fails |
| SinglePaxosHandlers.SinglePaxosHandler.Accept | src/paxos/SinglePaxosHandler.cc:120-141 | accepts any number not below the one promised, tells everyone |
| SinglePaxosHandlers.SinglePaxosHandler.Learn | src/paxos/SinglePaxosHandler.cc:143-164 | counts the learn messages of a round, fills the log's index with the value first heard for the round when the threshold is reached, once |
| SinglePaxosHandlers.SinglePaxosHandler.HandleMessage | src/paxos/MultiPaxosHandler.cc:18-34 | each message takes the node to the state of the protocol's step and sends what that step sends |
| PaxosInvariant.NextKeeps | src/paxos/SinglePaxosHandler.cc:44-164 | every propose, delivery and loss of a message keeps the protocol invariant |
| PaxosInvariant.ReachableHolds | src/paxos/SinglePaxosHandler.cc:44-164 | the invariant holds in every reachable state |
| PaxosInvariant.OneValuePerRound | src/paxos/SinglePaxosHandler.cc:58-116 | Accept messages of one number come from one node and carry one value, although numbers collide |
| PaxosInvariant.PromiseNeverFails | src/paxos/SinglePaxosHandler.cc:78-91 | neither assertion of the promise handler can fail |
| PaxosInvariant.AcceptIsFirst | src/paxos/SinglePaxosHandler.cc:84-116 | when a round's Accept goes out, none went out before |
| PaxosAgreement.LaterRoundsKeepValue | src/paxos/SinglePaxosHandler.cc:78-118 | once a value is chosen in a round, every Accept of that round or a later one carries it |
| PaxosAgreement.ChosenIsUnique | src/paxos/SinglePaxosHandler.cc:120-164 | at most one value is ever chosen |
| PaxosAgreement.Agreement | src/paxos/SinglePaxosHandler.cc:58-164 | in every run all values learned for one instance are the same, for the documented rule with meeting quorums, and for the loop as written when the quorum is the whole group |
| PaxosAgreement.Validity | src/paxos/SinglePaxosHandler.cc:44-164 | what is accepted or learned was proposed for this instance, round 0 is never accepted, no assertion of promise fails |
| PaxosAgreement.AcceptOncePerRound | src/paxos/SinglePaxosHandler.cc:84-116 | for each number at most one node ever broadcasts Accept, with one value, in one step, and no copy returns to the network |
| PaxosDisagreement.DisjointQuorumsDisagree | src/paxos/SinglePaxosHandler.cc:36-42 | for every group whose quorums need not meet, a run with numbers that the code draws and that disagrees |
| PaxosDisagreement.LiteralRuleDisagrees | src/paxos/SinglePaxosHandler.cc:92-105 | for every group whose quorums meet but are less than the whole, such a run under the loop as written |
| PaxosDisagreement.AgreementIffSound | src/paxos/SinglePaxosHandler.cc:36-164 | all runs agree if and only if quorums meet and the rule is the documented one or the quorum is the whole group, with any numbers and with those that the code draws |
| PaxosDisagreement.MajorityAgreement | src/paxos/SinglePaxosHandler.cc:40-42 | with the computed threshold, the documented rule always agrees; the loop as written agrees exactly for groups of at most two |
| PaxosDisagreement.MajorityIsLeast | src/paxos/SinglePaxosHandler.cc:40-42 | the computed threshold is the least that is safe: under the documented rule it always agrees, every smaller one has a run that disagrees, and there are enough servers for it |
| PaxosRuns.LearnedRound | src/paxos/SinglePaxosHandler.cc:36-164 | from any state, a proposer that can draw a number, and whose promises for it some acceptors can complete to a quorum, takes the value that the rule chooses of them through promise, accept and learn, and touches nobody else |
| PaxosProgress.Climb | src/paxos/SinglePaxosHandler.cc:36-56 | by proposing again and again a node comes to draw any given 32-bit number, changing nothing but its own proposals under other numbers |
| PaxosProgress.ValueCanBeLearned | src/paxos/SinglePaxosHandler.cc:36-164 | from every reachable state, every proposer can take every round, new or begun before, that acceptors are left to finish to a value learned by any node that has counted nothing in it, with numbers that the code draws and no other node proposing; under a sound rule it is the value chosen before, if any |
| PaxosProgress.LastRound | src/paxos/SinglePaxosHandler.cc:36-164 | whatever is in flight, a proposer short of a quorum of promises for the last 32-bit number, with acceptors left to complete it, can make any node learn |
| PaxosProgress.NodeWritesOnce | src/paxos/SinglePaxosHandler.cc:143-164 | in no run does a node write twice for one instance |
| PaxosStuck.LearnsIffRoomLeft | src/paxos/SinglePaxosHandler.cc:36-164 | in every reachable state with no message in flight and meeting quorums, with numbers that the code draws, a node that has not learned can still learn if and only if there is such a proposer |
| PaxosStuck.InstanceCanGetStuck | src/paxos/SinglePaxosHandler.cc:36-76 | for every group and value, a run with numbers that the code draws after which no node ever learns, whatever else happens |
| PaxosLogs.FillingExtends | src/paxos/PaxosLog.cc:54-66 | writing an index never shortens or changes the delivered prefix |
| PaxosLogs.HoleListIsUnique | src/paxos/PaxosLog.h:50-54 | the list of free indices depends on the filled ones only, not on the order of writing |
| PaxosLogs.FirstFreeIsFirstHole | src/paxos/PaxosLog.cc:83-88 | the first of the list is the first unfilled index |
| PaxosLogs.ListedIffFree | src/paxos/PaxosLog.cc:36-39 | the test of set_entry for an index that is already set is right: not listed and not beyond the last means filled |
| PaxosLogs.HolesAfterFilling | src/paxos/PaxosLog.cc:40-53 | taking an index off the list in each of the cases leaves all missing indices below the greatest filled one, and its successor |
| PaxosLogs.CallsAfterFilling | src/paxos/PaxosLog.cc:55-67 | the callbacks of the newly contiguous entries, after those made before, are exactly one pass over the new prefix |
| PaxosLogs.CallsAreExact | src/paxos/PaxosLog.cc:55-67 | the trace of calls between two indices: every callback registered for the kind of an entry is called once with its index and its entry, by ascending index and in order of registration, and nothing else is called |
| PaxosLogs.PassIsUnique | src/paxos/PaxosLog.cc:55-67 | there is only one such trace |
| Entries.KindIsExact | src/paxos/PaxosLog.cc:61-61 | the kind that selects the callbacks is that of the entry |
| PaxosLogs.PaxosLog.GetEntry | src/paxos/PaxosLog.cc:22-29 | the entry at an index, or nothing |
| PaxosLogs.PaxosLog.AddCallback | src/paxos/PaxosLog.cc:70-81 | callbacks of a kind are kept in order of registration |
| PaxosLogs.PaxosLog.NextAvailableIndex | src/paxos/PaxosLog.cc:83-88 | returns the first hole; both assertions hold |
| PaxosLogs.PaxosLog.TakeIndex | src/paxos/PaxosLog.cc:40-53 | the three branches keep the list of free indices right for the log with the index filled |
| PaxosLogs.PaxosLog.SetEntry | src/paxos/PaxosLog.cc:31-68 | first write wins; the list stays right; callbacks have run once each, in order, for exactly the filled prefix |
| MultiPaxosHandlers.MultiPaxosHandler.Propose | src/paxos/MultiPaxosHandler.cc:12-16 | a proposal goes to the first unfilled index and moves no other instance |
| MultiPaxosHandlers.MultiPaxosHandler.HandleIncomingMessage | src/paxos/MultiPaxosHandler.cc:18-34 | a message moves the instance of its index only, and fills the log at that index only |
| MultiPaxosHandlers.MultiPaxosHandler.GetInstance | src/paxos/MultiPaxosHandler.cc:36-41 | making an instance on demand changes the state of none |
| LogSyncer.BuildSyncRequest | src/server/LogSyncer.cc:59-84 | the runs expand back to exactly the list, none is empty, no two neighbours could be one |
| LogSyncer.RunsAscend | src/server/LogSyncer.cc:64-75 | for an ascending list the runs are ascending, disjoint and not adjacent |
| LogSyncer.BuildSyncResponse | src/server/LogSyncer.cc:86-129 | the loops collect the response that the lemmas below are about |
| LogSyncer.HandleSyncResponse | src/server/LogSyncer.cc:51-55 | merges the entries, first write wins, and keeps the log valid and its callbacks in step |
| LogSyncer.MergeKeepsAndAdds | src/server/LogSyncer.cc:51-55 | merging keeps every entry, fills every index sent with the first entry sent for it, and adds nothing else |
| LogSyncer.ResponseIsSound | src/server/LogSyncer.cc:92-126 | whatever the request, a response only holds entries of the responder's log |
| LogSyncer.ResponseIsExact | src/server/LogSyncer.cc:86-129 | the response holds each entry the requester lacks below the responder's first hole, once, ascending, and nothing else |
| LogSyncer.CatchUp | src/server/LogSyncer.cc:51-129 | after merging, the requester's first hole is at least the responder's, even if its log grew meanwhile |
| AgreedLogs.AgreedEntriesAreGuarded | src/paxos/MultiPaxosHandler.cc:12-16 | a guard checked when an entry was proposed holds when it is delivered, at every replica |
| ReplicatedLog.WorkingShows | src/paxos/MultiPaxosHandler.cc:18-34 | a replica that receives a message or syncs advances along the agreed log to where its own log now is, or makes an entry agreed |
| ReplicatedLog.MoveSimulates | src/paxos/MultiPaxosHandler.cc:12-34 | every step of the replicas, syncing included, is a step of the agreed log or none |
| ReplicatedLog.RunRefines | src/paxos/SinglePaxosHandler.cc:44-164 | every run of the replicas is, state by state, a run of the agreed log |
| ReplicatedLog.LogsAreCompatible | testing/integration/Tests.cc:389-407 | any two logs agree wherever both are filled, and of two delivered sequences one is a prefix of the other, over runs that mix learning and syncing |
| ReplicatedLog.DeliveredEntriesAreGuarded | src/paxos/MultiPaxosHandler.cc:12-16 | what every replica checks before proposing holds of every entry any replica delivers |
| ReplicaRuns.ReplicaRound | src/paxos/MultiPaxosHandler.cc:12-34 | whatever a replica proposes at the end of the agreed log, if it can finish a round there, its Paxos instance decides that or what was on offer before and any given replica writes it: the step to the agreed log is made by steps of the replicas |
| ReplicaRuns.FreshRound | src/paxos/MultiPaxosHandler.cc:12-34 | if nothing else is on offer there, it is the replica's own entry, and again nothing else is on offer |
| ReplicaProgress.CatchUpSome | src/server/LogSyncer.cc:40-129 | a replica that lags can deliver more of the agreed log, from another's delivered entries or by learning again in an instance open to it |
| ReplicaProgress.WriteSome | src/paxos/MultiPaxosHandler.cc:12-34 | a replica that does not lag can write what it proposes or what was on offer, and is able to go on as before |
| ReplicaProgress.OpenBeforeLastNumber | src/paxos/SinglePaxosHandler.cc:58-76 | with numbers that the code draws, an instance is open to every replica as long as no acceptor has promised the last number in it |
| KVStores.KVStore.Write | src/slave/KVStore.cc:8-17 | fails exactly when the write is not after the last access, changing nothing, else appends a version and moves the last access |
| KVStores.KVStore.Search | src/slave/KVStore.cc:26-40 | binary search finds the latest version at or before a time |
| KVStores.KVStore.Read | src/slave/KVStore.cc:19-47 | returns the latest version at or before the time, raises the last access only if there is one |
| KVStores.KVStore.ReadLat | src/slave/KVStore.cc:49-56 | the last access of a key that exists |
| KVStores.WriteIsReadBack | src/slave/KVStore.cc:8-17 | what is written is read from its time on, until a later version; no other reading of any key changes |
| KVStores.StaysSettled | src/slave/KVStore.cc:8-47 | a value that was read stays readable through any later write or read |
| KVStores.SnapshotReadIffKeyExists | src/slave/KVStore.h:21-35 | a performed read is repeatable after every continuation exactly when the key existed |
| ClientRequests.ClientRequestHandler.OnReadEntry | src/slave/ClientRequestHandler.cc:29-35 | the first index of a request id is kept, and the read is performed |
| ClientRequests.ClientRequestHandler.OnWriteEntry | src/slave/ClientRequestHandler.cc:37-43 | the first index of a request id is kept, and the write is performed or fails its assertion |
| ClientRequests.ClientRequestHandler.RunTask | src/slave/ClientRequestHandler.cc:58-122 | one run of the task: respond from the log, give up, refuse, or propose and wait |
| ClientRequests.TaskEndsWithOneResponse | src/slave/ClientRequestHandler.cc:57-122 | whatever it finds, a task proposes one and the same entry at most RETRY_LIMIT times, then responds, once, and runs no more |
| Tablet.ReplayNeverHalts | src/slave/ClientRequestHandler.cc:29-43 | replaying the agreed log alone never writes to the past |
| Tablet.ReplayIsExact | src/slave/ClientRequestHandler.cc:29-43 | the request-id map holds exactly the requests of the log, each at its own index |
| Tablet.AtMostOnce | src/slave/ClientRequestHandler.cc:58-60 | a request id is at one index of the agreed log at most |
| Tablet.NextKeeps | src/slave/ClientRequestHandler.cc:29-122 | every step of a tablet group keeps its invariant and is a step of the guarded agreed log |
| Tablet.TabletIsSafe | src/slave/ClientRequestHandler.cc:29-122 | in every run: at most once, replay never fails, and a replica that has not halted has exactly the versions of its prefix, with last accesses no earlier |
| Tablet.ReadSettlesAtIndex | src/slave/ClientRequestHandler.cc:63-70 | from the index of a READ whose key existed, the value read there is what the replayed store returns ever after |
| Tablet.RereadReturnsTheOldValue | src/slave/ClientRequestHandler.cc:63-70 | exactly when answering a delivered READ returns the value as of its index, and exactly when it changes the store |
| TabletAnswers.ReplayKeepsFirstIndex | src/slave/ClientRequestHandler.cc:29-43 | of any log, lawful or not, a replica that is up knows exactly the request ids that were delivered, each by its first index |
| TabletAnswers.ReplayReadsLastWrite | src/slave/KVStore.cc:8-47 | what is read of a key at a time is the value of the last delivered write of the key by that time, and nothing exactly if there is none |
| TabletAnswers.ReplayHasWrittenKeys | src/slave/KVStore.cc:8-17 | a key exists exactly if it was written |
| TabletAnswers.CanWriteIffAfterAccesses | src/slave/KVStore.cc:13-13 | a write passes the assertion exactly if it is after every delivered write of the key and every delivered read that found one |
| TabletAnswers.PassesIffInTime | src/slave/KVStore.cc:8-17 | any log replays without a failed assertion exactly if each write is after all that accessed its key before |
| TabletAnswers.LawfulIff | src/slave/ClientRequestHandler.cc:58-120 | the logs that can come to be agreed, as a condition on the entries alone: reads and writes with distinct ids, each write after all that accessed its key before |
| TabletAnswers.TasksAreRight | src/slave/ClientRequestHandler.cc:58-122 | in every run, whatever a task does at a replica that is up: a delivered WRITE is told success; a delivered READ the last value written by its time, or an error exactly if there is none, as of its own index if the key had been written before it; any other request never success, but an error if it gives up or its write is late, else a proposal of just what it asks |
| TabletAnswers.SuccessIsDelivered | src/slave/ClientRequestHandler.cc:60-82 | whoever is told of success has its request in the log, at one index |
| TabletHalting.HaltsIffEarlyReadRaises | src/slave/ClientRequestHandler.cc:29-122 | whichever replica it is: in some run over a lawful log it halts if and only if the log has a READ before its key existed and later a write to that key, by then existing, at a time no later than the READ's |
| TabletHalting.HaltedDeliveredRaise | src/slave/KVStore.cc:8-17 | a replica that halted has itself delivered such a pair |
| TabletHalting.AnswerCanHalt | src/slave/ClientRequestHandler.cc:63-66 | for every such pair and every replica, a run in which it equals the replay of its prefix, answers the READ, and for that reason halts at the write |
| TabletHalting.NoRaiseNoHalt | src/slave/ClientRequestHandler.cc:29-122 | a run whose log has no such pair keeps all replicas up |
| TabletHalting.DiffersIffEarlyReadDrifts | src/slave/ClientRequestHandler.cc:63-66 | a replica can come to differ from the replay of what it delivered if and only if the log has an early READ and at a later index a version at or before its time, last accessed before it |
| TabletHalting.RaisesDrifts | src/slave/KVStore.cc:8-33 | every log on which a replica can halt is one on which it can differ from its log before it halts |
| TabletHalting.HaltsIffRaised | src/slave/KVStore.cc:13-13 | at a single step: a replica halts exactly at a write that the replayed log allows and its own raised last access does not |
| TabletHalting.AgreedIffLawful | src/slave/ClientRequestHandler.cc:58-120 | the logs that can come to be agreed are exactly those each entry of which a replica of the prefix may propose |
| TabletHalting.InStepIffQuiet | src/slave/ClientRequestHandler.cc:29-122 | whatever the log, all through a run every replica is up and equal to the replay of its prefix if and only if no task in the run changes a store |
| TabletHalting.RereadCanHalt | src/slave/ClientRequestHandler.cc:63-66 | for every group and replica, a run on a log of three entries in which answering a READ makes it halt |
| TabletHalting.RereadCanDiffer | src/slave/ClientRequestHandler.cc:63-70 | and one in which the answer to a READ is a value although its key did not exist at its index |
| TabletOnPaxos.ReachedSimulates | src/slave/ClientRequestHandler.cc:29-122 | whatever tablets on Paxos replicas come to, a tablet group over an agreed log can come to |
| TabletOnPaxos.DeliveredReplays | src/slave/ClientRequestHandler.cc:29-43 | with nodes that run tasks against their own stores, on Paxos with loss, reordering and syncing: what any node delivers replays without failing |
| TabletOnPaxos.DeliveredAtMostOnce | src/slave/ClientRequestHandler.cc:58-60 | on these nodes a request id is at one index at most, across nodes and retries |
| TabletOnPaxos.NodesFollowTheirLogs | src/slave/ClientRequestHandler.cc:29-122 | on these nodes one that is up has exactly the versions of its log, with last accesses no earlier; one that halted delivered an early READ and a write in whose way it stands |
| TabletOnPaxos.NodeTasksAreRight | src/slave/ClientRequestHandler.cc:58-122 | the same of every node on Paxos, by what its own log holds |
| TabletOnPaxos.NodesServeOnce | src/slave/ClientRequestHandler.cc:58-82 | two nodes that tell of success for one request id, whenever and however often it was retried, have the same entry for it at the same index |
| TabletHaltsOnPaxos.AnswerCanHaltNode | src/slave/ClientRequestHandler.cc:63-66 | for every lawful log with such a pair, every node and every proposer, a run of the Paxos nodes, with numbers that the code draws, in which the node answers the READ and for that reason halts at the write |
| TabletHaltsOnPaxos.NodeHaltsIffEarlyReadRaises | src/slave/ClientRequestHandler.cc:29-122 | a Paxos node can halt with a prefix of a lawful log if and only if the log has such a pair |
| TabletHaltsOnPaxos.NodeDiffersIffEarlyReadDrifts | src/slave/ClientRequestHandler.cc:63-66 | a Paxos node can differ from the replay of its log on exactly the logs on which a replica over an agreed log can |
| KeySpaceRanges.StringLeqIff | src/server/KeySpaceRange.h:33-34 | keys are ordered by their first difference, and a key comes before its extensions |
| KeySpaceRanges.RangesSplit | src/server/KeySpaceRange.h:26-36 | a range cut in two at a key: each of its keys is in exactly one part, the cut itself in the upper one |
| KeySpaceManagers.KeySpaceManager.SetFirstConfig | src/master/KeySpaceManager.cc:91-93 | a new group starts with no ranges at generation 0, a known one is unchanged |
| KeySpaceManagers.KeySpaceManager.OnSelectedEntry | src/master/KeySpaceManager.cc:38-67 | KeySpace becomes NewKeySpace of the next generation and is sent to the slaves, or an assertion fails |
| KeySpaceManagers.KeySpaceManager.OnCommitEntry | src/master/KeySpaceManager.cc:71-88 | NewKeySpace of the same generation becomes KeySpace, or an assertion fails |
| KeySpaceManagers.KeySpaceManager.SearchGroups | src/master/KeySpaceManager.cc:103-131 | the loop over the groups answers, resends, or finds nothing |
| KeySpaceManagers.KeySpaceManager.RunFindKey | src/master/KeySpaceManager.cc:100-166 | one run of the find-key task, for any order of iteration |
| KeySpaceManagers.KeySpaceManager.RunKeySpaceChanged | src/master/KeySpaceManager.cc:175-194 | proposes a commit exactly for a NewKeySpace of the confirmed generation; looking up an unknown group adds it |
| KeySpaceManagers.SearchFinds | src/master/KeySpaceManager.cc:103-131 | nothing is found only if no group has the key, and what is found is a group that has it |
| KeySpaceManagers.SearchFindsFirst | src/master/KeySpaceManager.cc:103-131 | of the groups that have the key, the first in the order of iteration is answered, or sent its selection |
| KeySpaceManagers.FirstFreeIsFirst | src/master/KeySpaceManager.cc:145-148 | and of the free groups the first is taken |
| KeySpaceManagers.FindKeyProposesAtMost | src/master/KeySpaceManager.cc:99-166 | a find-key task responds at its last run only, proposes at most RETRY_LIMIT times, and refuses exactly when it has made as many proposals and nobody has the key |
| SlaveKeySpaceManagers.SlaveKeySpaceManager.OnChangedEntry | src/slave/SlaveKeySpaceManager.cc:33-59 | takes exactly the next generation, adds its tablets, confirms it |
| SlaveKeySpaceManagers.SlaveKeySpaceManager.RunKeySpaceChange | src/slave/SlaveKeySpaceManager.cc:68-111 | ignores, proposes or confirms a selection by comparing generations |
| SlaveKeySpaceManagers.TabletParticipantManager.HandleKeySpaceChange | src/slave/TabletParticipantManager.cc:42-49 | adds a tablet for each range that has none |
| SlaveKeySpaceManagers.TabletParticipantManager.HandleClientRequest | src/slave/TabletParticipantManager.cc:55-70 | routes to the first tablet in iteration order that has the key, else an error |
| SlaveKeySpaceManagers.RouteFindsFirst | src/slave/TabletParticipantManager.cc:55-70 | of the tablets that have the key, the first in the order of iteration is taken |
| KeySpaceReplays.MasterReplayPassesIff | src/master/KeySpaceManager.cc:36-89 | any log passes the masters' assertions exactly if selections and commits alternate for each known group and count its generations; each group then has the ranges of its last selection |
| KeySpaceReplays.SlaveReplayPassesIff | src/slave/SlaveKeySpaceManager.cc:31-59 | any log passes the slaves' assertion exactly if its adoptions count the generations from 1 on; the slave then has the ranges of the last |
| Handshake.FindKeyIsRightful | src/master/KeySpaceManager.cc:100-166 | at any master, lagging or not: an answer is for an adopted key, a resent selection is the agreed one, a proposal keeps the partition |
| Handshake.SelectedIsRightful | src/slave/SlaveKeySpaceManager.cc:68-111 | a slave adopts exactly the next generation, with the agreed ranges, and confirms exactly the last that its log holds |
| Handshake.GoodNext | src/master/KeySpaceManager.cc:38-88 | an agreed selection or commit passes the callback's assertions and keeps the masters' state in order |
| Handshake.MasterStepKeeps | src/master/KeySpaceManager.cc:36-194 | every step of the masters keeps the invariant across all groups |
| Handshake.SlaveStepKeeps | src/slave/SlaveKeySpaceManager.cc:31-111 | every step of a slave group keeps it |
| Handshake.ReachedHolds | src/master/KeySpaceManager.cc:36-194 | it holds in every state of every run |
| KeySpaceSafety.NoAssertionFails | src/master/KeySpaceManager.cc:41-82 | no generation or variant assertion of the masters' or the slaves' callbacks ever fails |
| KeySpaceSafety.EqualGenerationsEqualRanges | src/slave/SlaveKeySpaceManager.cc:35-45 | a generation means the same range list at every master and every slave, however far each lags |
| KeySpaceSafety.MastersAgreeOnGenerations | src/master/KeySpaceManager.cc:51-61 | a later generation at any master extends an earlier one at any other |
| KeySpaceSafety.MastersAreBarelyAhead | src/master/KeySpaceManager.cc:176-190 | masters run at most one generation ahead of what a group adopted, and not at all of a steady group |
| KeySpaceSafety.HandshakeSafety | src/master/KeySpaceManager.cc:103-112 | when any master has answered a key with a group, the group's log holds a generation covering it, and all later ones cover it too |
| KeySpaceSafety.SteadyMeansAdopted | src/master/KeySpaceManager.cc:104-112 | the same of every key that any master is ready to answer |
| KeySpaceSafety.GenerationCountsRanges | src/master/KeySpaceManager.cc:156-163 | a group has as many ranges as its generation, each a whole table, one more than before |
| KeySpaceSafety.RangePartition | src/server/KeySpaceRange.h:26-36 | no key lies in two assigned ranges, within a group or across groups |
| KeySpaceSafety.FindKeyIgnoresOrder | src/master/KeySpaceManager.cc:103-131 | the result of the search does not depend on the order in which the map is iterated |
| KeySpaceSafety.TabletsAreLatestRanges | src/slave/TabletParticipantManager.cc:42-49 | tablets are only added, yet a replica has exactly those of its latest generation |
| KeySpaceSafety.RoutingIsDetermined | src/slave/TabletParticipantManager.cc:59-63 | a request is routed to the tablet of the key's whole table exactly when the replica's latest generation covers it, in any order of iteration |
| KeySpaceSafety.OneGroupServes | src/slave/TabletParticipantManager.cc:55-70 | replicas of two groups never both serve a key |
| KeySpaceSafety.AnsweredKeysAreRouted | src/master/KeySpaceManager.cc:107-111 | a replica that has delivered what its group adopted routes every key that was answered with that group |
| KeySpaceProgress.FinishGroup | src/master/KeySpaceManager.cc:115-130 | a group that is getting new ranges can always be sent its selection again and adopt or confirm it, so that a master proposes the commit |
| KeySpaceProgress.AnswerOrProposal | src/master/KeySpaceManager.cc:95-195 | from every reachable state with its servers up to date, any key can be answered, or the master comes to propose an entry that takes it closer to the answer by a measure of at most three |
| KeySpaceProgress.MasterCanRepeat | src/master/KeySpaceManager.cc:95-195 | a master that lags can always propose the very entry that was agreed on for the index it is at |
| KeySpaceProgress.SlaveCanRepeat | src/slave/SlaveKeySpaceManager.cc:61-111 | so can a slave |
| KeySpaceProgress.EveryKeyCanBeAnswered | src/master/KeySpaceManager.cc:95-195 | over agreed logs, where what is offered can be agreed on: from every reachable state, whatever was lost and however far everyone lags, there are steps to an answer for any key |
| HandshakeOnPaxos.ReachedSimulates | src/master/KeySpaceManager.cc:36-194 | whatever masters and slave groups on Paxos replicas come to, the handshake over agreed logs can come to |
| HandshakeOnPaxos.NoServerFails | src/master/KeySpaceManager.cc:41-82 | on Paxos replicas no callback's assertion fails at any server |
| HandshakeOnPaxos.AnswersAreChosen | src/master/KeySpaceManager.cc:103-112 | when any master has answered a key with a group, the group's Paxos instances have chosen a generation covering it, and whatever they chose after it covers it too |
| HandshakeOnPaxos.SameGenerationSameRanges | src/slave/SlaveKeySpaceManager.cc:35-45 | servers with the same generation of a group have the same ranges |
| HandshakeOnPaxos.OneGroupServes | src/slave/TabletParticipantManager.cc:55-70 | servers of two groups never both serve a key |
| KeySpaceProgressOnPaxos.MasterWriteGoes | src/master/KeySpaceManager.cc:95-195 | what a master proposes, or what was on offer for the index before, is taken through the masters' Paxos instance by steps of the servers, to the very state of the handshake over agreed logs |
| KeySpaceProgressOnPaxos.EveryKeyCanBeAnswered | src/master/KeySpaceManager.cc:95-195 | on Paxos replicas: from every reachable state in which one master, and one slave of each group, can finish a round at every index that it lacks and nobody has delivered, there are steps to an answer for any key |
| KeySpaceProgressOnPaxos.BeforeLastNumberEveryKeyCanBeAnswered | src/master/KeySpaceManager.cc:95-195 | with numbers that the code draws, that is so in every reachable state in which no acceptor of any group has promised the last 32-bit number |
| KeySpaceStuckOnPaxos.MastersCanGetStuck | src/master/KeySpaceManager.cc:95-195 | and not from every state: a run, with numbers that the code draws, after which no client is ever answered |
| AsyncQueues.AsyncQueue.AddTask | src/async/AsyncQueue.cc:12-17 | the task goes last; a timer is set exactly when the queue was empty |
| AsyncQueues.AsyncQueue.RunTask | src/async/AsyncQueue.cc:19-30 | the front task stays and is timed again for the wait it returned, or is popped and the next one timed at once, also when it added tasks itself |
| AsyncQueues.StepKeeps | src/async/AsyncQueue.cc:12-30 | each step keeps the discipline below, and a timer never finds the queue empty |
| AsyncQueues.RunsAreDisciplined | src/async/AsyncQueue.h:13-22 | in every run exactly one timer is pending if there are tasks, for the wait that the last run returned, or at once if that run ended its task, and none otherwise; tasks run and finish one after the other in order of arrival |
| PaxosConfigs.PaxosConfigManager.OnReconfigStarted | src/paxos/PaxosConfigManager.cc:17-27 | appends the new configuration for the next index, or fails the assertion |
| PaxosConfigs.PaxosConfigManager.Config | src/paxos/PaxosConfigManager.cc:30-36 | the loop finds the last configuration that starts at the index or before, and fails exactly if there is none |
| PaxosConfigs.LookupIsInForce | src/paxos/PaxosConfigManager.h:26-31 | in an ascending timeline that is the one with the greatest index not above |
| PaxosConfigs.TimelineAscends | src/paxos/PaxosConfigManager.h:44-47 | as long as the assertion holds, replaying a log gives a strictly ascending timeline |
| PaxosConfigs.TimelineIsExact | src/paxos/PaxosConfigManager.cc:14-27 | the timeline is the first configuration and one for each reconfiguration of the log, from the next index on, with the servers that it names |
| PaxosConfigs.ConfigInForceIs | src/paxos/PaxosConfigManager.h:26-31 | the configuration in force at an index is that of the last reconfiguration below it, or the first |
| PaxosConfigs.ConfigIsStable | src/paxos/PaxosConfigManager.cc:15-36 | once every entry below an index is delivered, the configuration in force there never changes |
| PaxosConfigs.ReplayPassesIffSpaced | src/paxos/PaxosConfigManager.cc:18-26 | replaying a log passes the assertion exactly when no reconfiguration is at or below the first index and none follows another directly |

## Left out

- Sockets, framing, threads, the timers' clock, protobuf encoding and the functors that wrap messages. A message handler and a run of a task are one step each (`src/async/TimerAsyncScheduler.h:14-19`); an incoming Paxos message without content is not modelled.
- Duplication by the network: the message bag delivers each copy of a Paxos message at most once, as the channels of `src/net/Channel.h:14-16` do. Sync responses, selections and confirmations may be repeated in the model.
- The senders of promises and learn messages, which the handlers do not record, are ghost tags in the class and in the protocol. That a group has as many acceptors per instance as the constant says is an assumption, since the threshold comes from the constant and not from the configuration.
- Fixed widths: log indices, generations, timestamps and retry counters are unbounded. Proposal numbers are 32 bits wide and wrap in NextProposalNumber; the step system allows any number or, where a group says so, those that can be drawn.
- The random draw, the order of iteration of hash maps, and the endpoint of a message's sender are parameters. Handshake.dfy gives a confirmation the group it comes from, so endpoints of different groups are taken to be disjoint.
- All slave groups are known to every master from the start, and messages to a group may reach any of its replicas, where the code addresses the first endpoint.
- HandshakeOnPaxos.dfy and TabletOnPaxos.dfy are two systems: which tablets a slave group has, and the tablets' own logs, are not joined into one. All slave groups have the same size there.
- MoveSimulates, RunRefines and the systems on Paxos need agreement, so for the choice loop as written they speak of groups whose threshold is the whole group.
- KeySpaceProgressOnPaxos.EveryKeyCanBeAnswered goes one way: several masters, or several slaves of a group, could between them do what no one of them can. MastersCanGetStuck is a state in which none can.
- ReplicaRound: the runs built on Paxos use the last 32-bit number, which is always free in a new instance. They propose an entry as often as it takes to draw that number, each time by the first run of a new task for the same request.
- AnswerCanHalt: the queue that a replica's tasks share is not part of the step system. Where the writer is the same replica, its task has to give up first, after RETRY_LIMIT proposals of one entry, of which all but the first change nothing.
- Running Paxos across a change of the configuration: nothing proposes one, and the threshold ignores it. Only the timeline is modelled.
- A log that starts from given entries (`src/paxos/PaxosLog.cc:15-20`), and recovery after a crash: nothing is persisted.
- Liveness under a scheduler: the progress theorems say that steps to the goal exist, not that they are taken. The heartbeat tracker and the choice of a leader are not modelled; Paxos does not consult them.
- GroupConfigManager, Connections, the proposer queue that nothing uses, tablet messages to a tablet participant, debug strings and logging.
