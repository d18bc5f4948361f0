/**
 Dispatch to the Paxos instance of each log index. Instances are made on demand, and a proposal
 always goes to the instance of the first free index.
*/
module MultiPaxosHandlers {
  import opened Entries
  import opened PaxosNode
  import opened PaxosLogs
  import opened SinglePaxosHandlers

  class MultiPaxosHandler {
    const serverCount: nat
    const paxosLog: PaxosLog
    var instances: map<nat, SinglePaxosHandler>

    ghost predicate Valid()
      reads this, instances.Values, paxosLog
    {
      && paxosLog.Valid()
      && forall i :: i in instances ==>
           && instances[i].Valid()
           && instances[i].index == i
           && instances[i].serverCount == serverCount
           && instances[i].paxosLog == paxosLog
    }

    /** The state of an instance, which may not have been made yet. */
    ghost function StateAt(index: nat): Node
      reads this, instances.Values
    {
      if index in instances then instances[index].State() else INIT_NODE
    }

    constructor (serverCount: nat, paxosLog: PaxosLog)
      requires paxosLog.Valid()
      ensures Valid() && forall i: nat :: StateAt(i) == INIT_NODE
      ensures this.serverCount == serverCount && this.paxosLog == paxosLog
    {
      this.serverCount, this.paxosLog, instances := serverCount, paxosLog, map[];
    }

    method GetInstance(index: nat) returns (instance: SinglePaxosHandler)
      requires Valid()
      modifies this
      ensures Valid()
      ensures index in instances && instances[index] == instance
      ensures instances == old(instances) || (fresh(instance) && instances == old(instances)[index := instance])
      ensures forall i: nat :: StateAt(i) == old(StateAt(i))
    {
      if index !in instances {
        instance := new SinglePaxosHandler(serverCount, index, paxosLog);
        instances := instances[index := instance];
      }
      instance := instances[index];
    }

    /** The proposal goes to the first index that this node has not filled, and moves only its instance. */
    method Propose(random: nat, entry: Entry) returns (index: nat, send: Send)
      requires Valid()
      modifies this, instances.Values
      ensures Valid() && paxosLog.log == old(paxosLog.log)
      ensures index == FirstHole(paxosLog.log)
      ensures
        var before := old(StateAt(index));
        var eff := OnPropose(before, NextProposalNumber(before.latest, random), entry);
        && send == eff.send
        && forall i: nat :: StateAt(i) == if i == index then eff.node else old(StateAt(i))
    {
      index := paxosLog.NextAvailableIndex();
      send := ProposeAt(index, random, entry);
    }

    method ProposeAt(index: nat, random: nat, entry: Entry) returns (send: Send)
      requires Valid()
      modifies this, instances.Values
      ensures Valid() && paxosLog.log == old(paxosLog.log)
      ensures
        var before := old(StateAt(index));
        var eff := OnPropose(before, NextProposalNumber(before.latest, random), entry);
        && send == eff.send
        && forall i: nat :: StateAt(i) == if i == index then eff.node else old(StateAt(i))
    {
      var instance := GetInstance(index);
      assert instance.State() == StateAt(index);
      send := instance.Propose(random, entry);
    }

    /** The message goes to an instance that has been made. */
    method HandleAt(index: nat, from: nat, msg: Msg) returns (send: Send, failed: bool)
      requires Valid() && index in instances
      modifies instances.Values, paxosLog`log, paxosLog`available, paxosLog`calls
      ensures Valid()
      ensures
        var eff := OnMessage(Literal, MajorityThreshold(serverCount), old(StateAt(index)), from, msg);
        && send == eff.send && failed == eff.failed
        && paxosLog.log ==
          (if eff.wrote.Some? then Filled(old(paxosLog.log), index, eff.wrote.value) else old(paxosLog.log))
        && forall i: nat :: StateAt(i) == if i == index then eff.node else old(StateAt(i))
      ensures old(paxosLog.InStep()) ==> paxosLog.InStep()
    {
      var instance := instances[index];
      send, failed := instance.HandleMessage(from, msg);
    }

    method HandleIncomingMessage(from: nat, index: nat, msg: Msg) returns (send: Send, failed: bool)
      requires Valid()
      modifies this, instances.Values, paxosLog`log, paxosLog`available, paxosLog`calls
      ensures Valid()
      ensures
        var eff := OnMessage(Literal, MajorityThreshold(serverCount), old(StateAt(index)), from, msg);
        && send == eff.send && failed == eff.failed
        && paxosLog.log ==
          (if eff.wrote.Some? then Filled(old(paxosLog.log), index, eff.wrote.value) else old(paxosLog.log))
        && forall i: nat :: StateAt(i) == if i == index then eff.node else old(StateAt(i))
      ensures old(paxosLog.InStep()) ==> paxosLog.InStep()
    {
      var instance := GetInstance(index);
      send, failed := HandleAt(index, from, msg);
    }
  }
}
