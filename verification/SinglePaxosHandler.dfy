/** The handler of one Paxos instance, as the object that the program keeps per log index. */
module SinglePaxosHandlers {
  import opened Wrappers
  import opened Entries
  import opened PaxosNode
  import opened PaxosLogs

  // What the handler stores of a promise: the number and the value, not the sender.
  datatype Report = Report(vrnd: nat, vval: Entry)

  // What it stores of the learn messages of a round: the value and how many arrived.
  datatype Count = Count(vval: Entry, count: nat)

  ghost predicate Stores(reports: seq<Report>, promises: seq<Promised>) {
    && |reports| == |promises|
    && forall i :: 0 <= i < |reports| ==> reports[i] == Report(promises[i].vrnd, promises[i].vval)
  }

  ghost predicate CountsMatch(counts: map<nat, Count>, tallies: map<nat, Tally>) {
    && counts.Keys == tallies.Keys
    && forall r :: r in tallies ==> counts[r] == Count(tallies[r].vval, |tallies[r].from|)
  }

  lemma CountsMatchUpdate(counts: map<nat, Count>, tallies: map<nat, Tally>, r: nat, tally: Tally)
    requires CountsMatch(counts, tallies)
    ensures CountsMatch(counts[r := Count(tally.vval, |tally.from|)], tallies[r := tally])
  {
  }

  class SinglePaxosHandler {
    const serverCount: nat
    const index: nat
    const paxosLog: PaxosLog

    var latest: nat
    var proposal: map<nat, Entry>
    var prepareState: map<nat, seq<Report>>
    var rnd: nat
    var vrnd: nat
    var vval: Entry
    var learned: bool
    var learnedValue: map<nat, Count>

    // The same promises and learn messages with their senders, which the handler never looks at.
    ghost var promises: map<nat, seq<Promised>>
    ghost var tallies: map<nat, Tally>

    ghost predicate Valid()
      reads this
    {
      && promises.Keys == prepareState.Keys
      && (forall r :: r in promises ==> Stores(prepareState[r], promises[r]))
      && CountsMatch(learnedValue, tallies)
    }

    ghost function State(): Node
      reads this
    {
      Node(latest, proposal, promises, rnd, vrnd, vval, learned, tallies)
    }

    constructor (serverCount: nat, index: nat, paxosLog: PaxosLog)
      ensures Valid() && State() == INIT_NODE
      ensures this.serverCount == serverCount && this.index == index && this.paxosLog == paxosLog
    {
      this.serverCount, this.index, this.paxosLog := serverCount, index, paxosLog;
      latest, proposal, prepareState := 0, map[], map[];
      rnd, vrnd, vval := 0, 0, Unset;
      learned, learnedValue := false, map[];
      promises, tallies := map[], map[];
    }

    method Propose(random: nat, entry: Entry) returns (send: Send)
      requires Valid()
      modifies this
      ensures Valid()
      ensures
        var eff := OnPropose(old(State()), NextProposalNumber(old(latest), random), entry);
        State() == eff.node && send == eff.send
    {
      var number := NextProposalNumber(latest, random);
      latest := number;
      if number !in proposal {
        proposal := proposal[number := entry];
      }
      if number !in prepareState {
        prepareState := prepareState[number := []];
        promises := promises[number := []];
      }
      send := ToAll(PaxosNode.Prepare(number));
    }

    method Prepare(from: nat, number: nat) returns (send: Send)
      requires Valid()
      modifies this
      ensures Valid()
      ensures var eff := OnPrepare(old(State()), from, number); State() == eff.node && send == eff.send
    {
      send := Silent;
      if number > rnd {
        rnd := number;
        send := To(from, PaxosNode.Promise(rnd, vrnd, vval));
      }
    }

    /** The choice loop, with its running maximum that stays 0. */
    method ChooseValue(own: Entry, reports: seq<Report>, ghost tagged: seq<Promised>) returns (value: Entry)
      requires Stores(reports, tagged)
      ensures value == LiteralChoice(own, tagged)
    {
      value := own;
      var maxVrnd := 0;
      for i := 0 to |reports|
        invariant value == LiteralChoice(own, tagged[..i])
      {
        assert tagged[..i + 1][..i] == tagged[..i];
        if reports[i].vrnd > 0 {
          if reports[i].vrnd > maxVrnd {
            value := reports[i].vval;
          }
        }
      }
      assert tagged[..|reports|] == tagged;
    }

    method Promise(ghost from: nat, number: nat, vr: nat, v: Entry) returns (send: Send, failed: bool)
      requires Valid()
      modifies this
      ensures Valid()
      ensures
        var eff := OnPromise(Literal, MajorityThreshold(serverCount), old(State()), from, number, vr, v);
        State() == eff.node && send == eff.send && failed == eff.failed
    {
      send, failed := Silent, false;
      if number !in prepareState {
        failed := true;
        return;
      }
      if |prepareState[number]| < MajorityThreshold(serverCount) {
        prepareState := prepareState[number := prepareState[number] + [Report(vr, v)]];
        promises := promises[number := promises[number] + [Promised(from, vr, v)]];
        if |prepareState[number]| == MajorityThreshold(serverCount) {
          if number !in proposal {
            failed := true;
            return;
          }
          var value := ChooseValue(proposal[number], prepareState[number], promises[number]);
          send := ToAll(PaxosNode.Accept(number, value));
        }
      }
    }

    method Accept(number: nat, v: Entry) returns (send: Send)
      requires Valid()
      modifies this
      ensures Valid()
      ensures var eff := OnAccept(old(State()), number, v); State() == eff.node && send == eff.send
    {
      send := Silent;
      if number >= rnd {
        rnd, vrnd, vval := number, number, v;
        send := ToAll(PaxosNode.Learn(number, v));
      }
    }

    /** The first learn message of a round fixes the value that the round counts for. */
    method StartCount(number: nat, v: Entry)
      requires Valid()
      modifies this`learnedValue, this`tallies
      ensures Valid() && number in learnedValue
      ensures tallies == InsertNew(old(tallies), number, Tally(v, []))
    {
      if number !in learnedValue {
        CountsMatchUpdate(learnedValue, tallies, number, Tally(v, []));
        learnedValue := learnedValue[number := Count(v, 0)];
        tallies := tallies[number := Tally(v, [])];
      }
    }

    /** Counts a learn message; returns the value when this was the one that made a quorum. */
    method CountLearn(ghost from: nat, number: nat, v: Entry) returns (wrote: Option<Entry>)
      requires Valid()
      modifies this
      ensures Valid()
      ensures
        var eff := OnLearn(MajorityThreshold(serverCount), old(State()), from, number, v);
        State() == eff.node && wrote == eff.wrote
    {
      wrote := None;
      if learned {
        return;
      }
      StartCount(number, v);
      var count := learnedValue[number];
      if count.count < MajorityThreshold(serverCount) {
        ghost var tally := tallies[number].(from := tallies[number].from + [from]);
        CountsMatchUpdate(learnedValue, tallies, number, tally);
        learnedValue := learnedValue[number := count.(count := count.count + 1)];
        tallies := tallies[number := tally];
        if count.count + 1 == MajorityThreshold(serverCount) {
          learned := true;
          wrote := Some(count.vval);
        }
      }
    }

    method Learn(ghost from: nat, number: nat, v: Entry)
      requires Valid() && paxosLog.Valid()
      modifies this, paxosLog`log, paxosLog`available, paxosLog`calls
      ensures Valid() && paxosLog.Valid()
      ensures
        var eff := OnLearn(MajorityThreshold(serverCount), old(State()), from, number, v);
        && State() == eff.node
        && paxosLog.log ==
          if eff.wrote.Some? then Filled(old(paxosLog.log), index, eff.wrote.value) else old(paxosLog.log)
      ensures old(paxosLog.InStep()) ==> paxosLog.InStep()
    {
      var wrote := CountLearn(from, number, v);
      if wrote.Some? {
        paxosLog.SetEntry(index, wrote.value);
      }
    }

    method HandleMessage(from: nat, msg: Msg) returns (send: Send, failed: bool)
      requires Valid() && paxosLog.Valid()
      modifies this, paxosLog`log, paxosLog`available, paxosLog`calls
      ensures Valid() && paxosLog.Valid()
      ensures
        var eff := OnMessage(Literal, MajorityThreshold(serverCount), old(State()), from, msg);
        && State() == eff.node
        && send == eff.send && failed == eff.failed
        && paxosLog.log ==
          if eff.wrote.Some? then Filled(old(paxosLog.log), index, eff.wrote.value) else old(paxosLog.log)
      ensures old(paxosLog.InStep()) ==> paxosLog.InStep()
    {
      send, failed := Silent, false;
      match msg {
        case Prepare(rnd) => send := Prepare(from, rnd);
        case Promise(rnd, vrnd, vval) => send, failed := Promise(from, rnd, vrnd, vval);
        case Accept(vrnd, vval) => send := Accept(vrnd, vval);
        case Learn(vrnd, vval) => Learn(from, vrnd, vval);
      }
    }
  }
}
