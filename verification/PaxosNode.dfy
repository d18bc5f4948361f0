/**
 One node of one Paxos instance: the proposer, acceptor and learner state, and what each of the
 five handlers does to it, as functions on values. SinglePaxosHandler.dfy has the handlers as
 methods of a class and proves them against these functions.

 The `from` fields record who sent a promise or a learn message. No handler reads them: the
 program only counts messages. They let the protocol say whose messages were counted.
*/
module PaxosNode {
  import opened Wrappers
  import opened Entries

  datatype Msg =
    | Prepare(rnd: nat)
    | Promise(rnd: nat, vrnd: nat, vval: Entry)
    | Accept(vrnd: nat, vval: Entry)
    | Learn(vrnd: nat, vval: Entry)

  datatype Promised = Promised(from: nat, vrnd: nat, vval: Entry)

  datatype Tally = Tally(vval: Entry, from: seq<nat>)

  datatype Node = Node(
    latest: nat,
    proposal: map<nat, Entry>,
    promises: map<nat, seq<Promised>>,
    rnd: nat,
    vrnd: nat,
    vval: Entry,
    learned: bool,
    tallies: map<nat, Tally>)

  datatype Send = Silent | ToAll(msg: Msg) | To(dst: nat, msg: Msg)

  // What a handler did: the new state, the messages it sent, the value it wrote to the log, and
  // whether one of its assertions failed.
  datatype Effect = Effect(node: Node, send: Send, wrote: Option<Entry>, failed: bool)

  const INIT_NODE := Node(0, map[], map[], 0, 0, Unset, false, map[])

  /** floor(size / 2) + 1, for a group of `size` servers. */
  function MajorityThreshold(size: nat): nat { size / 2 + 1 }

  // ----- Choosing the value of an Accept message -----

  // Literal is the loop as it is written, where the running maximum is never updated. Documented
  // is the loop its comment describes.
  datatype Rule = Literal | Documented

  function LiteralChoice(own: Entry, promises: seq<Promised>): Entry {
    if promises == [] then own
    else
      var last := promises[|promises| - 1];
      if last.vrnd > 0 then last.vval else LiteralChoice(own, promises[..|promises| - 1])
  }

  function MaxVrnd(promises: seq<Promised>): nat {
    if promises == [] then 0
    else
      var m := MaxVrnd(promises[..|promises| - 1]);
      var last := promises[|promises| - 1];
      if last.vrnd > m then last.vrnd else m
  }

  function DocumentedChoice(own: Entry, promises: seq<Promised>): Entry {
    if promises == [] then own
    else
      var rest := promises[..|promises| - 1];
      var last := promises[|promises| - 1];
      if last.vrnd > MaxVrnd(rest) then last.vval else DocumentedChoice(own, rest)
  }

  function Choose(rule: Rule, own: Entry, promises: seq<Promised>): Entry {
    match rule
    case Literal => LiteralChoice(own, promises)
    case Documented => DocumentedChoice(own, promises)
  }

  /** The literal loop takes the last promise that reports an accepted value, whatever its number. */
  lemma {:induction false} LiteralTakesLast(own: Entry, promises: seq<Promised>, i: nat)
    requires i < |promises| && promises[i].vrnd > 0
    requires forall j :: i < j < |promises| ==> promises[j].vrnd == 0
    ensures LiteralChoice(own, promises) == promises[i].vval
    decreases |promises|
  {
    if i < |promises| - 1 {
      LiteralTakesLast(own, promises[..|promises| - 1], i);
    }
  }

  lemma {:induction false} MaxVrndIsMax(promises: seq<Promised>)
    ensures forall i :: 0 <= i < |promises| ==> promises[i].vrnd <= MaxVrnd(promises)
    ensures MaxVrnd(promises) == 0 || exists i :: 0 <= i < |promises| && promises[i].vrnd == MaxVrnd(promises)
  {
    if promises != [] {
      var rest := promises[..|promises| - 1];
      MaxVrndIsMax(rest);
      if MaxVrnd(promises) != 0 && promises[|promises| - 1].vrnd <= MaxVrnd(rest) {
        var i :| 0 <= i < |rest| && rest[i].vrnd == MaxVrnd(rest);
        assert promises[i].vrnd == MaxVrnd(promises);
      }
    }
  }

  /** The documented rule takes the value of a promise that reports the highest accepted number. */
  lemma {:induction false} DocumentedTakesHighest(own: Entry, promises: seq<Promised>)
    ensures MaxVrnd(promises) == 0 ==> DocumentedChoice(own, promises) == own
    ensures MaxVrnd(promises) > 0
            ==> exists i :: 0 <= i < |promises| && promises[i].vrnd == MaxVrnd(promises)
                            && promises[i].vval == DocumentedChoice(own, promises)
  {
    if promises != [] {
      var rest := promises[..|promises| - 1];
      DocumentedTakesHighest(own, rest);
      if promises[|promises| - 1].vrnd > MaxVrnd(rest) {
        assert promises[|promises| - 1].vval == DocumentedChoice(own, promises);
      } else if MaxVrnd(promises) > 0 {
        var i :| 0 <= i < |rest| && rest[i].vrnd == MaxVrnd(rest) && rest[i].vval == DocumentedChoice(own, rest);
        assert promises[i].vrnd == MaxVrnd(promises) && promises[i].vval == DocumentedChoice(own, promises);
      }
    }
  }

  // What the comment promises: some promise reports this value with the highest number of all.
  ghost predicate IsHighest(promises: seq<Promised>, v: Entry) {
    exists j :: 0 <= j < |promises| && promises[j].vrnd == MaxVrnd(promises) && promises[j].vval == v
  }

  // Promise i is the last that reports an accepted value.
  ghost predicate IsLastReport(promises: seq<Promised>, i: nat) {
    i < |promises| && promises[i].vrnd > 0 && forall j :: i < j < |promises| ==> promises[j].vrnd == 0
  }

  // No other number is reported for the value that promise i reports.
  ghost predicate CarriedOnce(promises: seq<Promised>, i: nat)
    requires i < |promises|
  {
    forall j :: 0 <= j < |promises| && promises[j].vrnd > 0 && promises[j].vval == promises[i].vval ==>
      promises[j].vrnd == promises[i].vrnd
  }

  /**
   The loop as written keeps the comment's promise if the last report has the highest number. It
   does so only then, unless its value is also reported with another number.
  */
  lemma LiteralKeepsPromiseIff(own: Entry, promises: seq<Promised>, i: nat)
    requires IsLastReport(promises, i)
    ensures
      var highest := forall j :: 0 <= j < |promises| ==> promises[j].vrnd <= promises[i].vrnd;
      && (highest ==> IsHighest(promises, LiteralChoice(own, promises)))
      && (CarriedOnce(promises, i) ==> (IsHighest(promises, LiteralChoice(own, promises)) <==> highest))
  {
    LiteralTakesLast(own, promises, i);
    MaxVrndIsMax(promises);
  }

  const HIGH_FIRST := [Promised(0, 2, ReconfigFinished), Promised(1, 1, Unset)]

  /** Two promises, the one with the lower number last: the loop takes its value. */
  lemma LiteralBreaksPromise(own: Entry)
    ensures LiteralChoice(own, HIGH_FIRST) == Unset && !IsHighest(HIGH_FIRST, Unset)
    ensures DocumentedChoice(own, HIGH_FIRST) == ReconfigFinished
  {
    LiteralKeepsPromiseIff(own, HIGH_FIRST, 1);
    LiteralTakesLast(own, HIGH_FIRST, 1);
    assert HIGH_FIRST[0].vrnd > HIGH_FIRST[1].vrnd;
    assert HIGH_FIRST[..1] == [HIGH_FIRST[0]] && HIGH_FIRST[..1][..0] == [];
  }

  /**
   When round k has been accepted by someone the promises speak of, the chosen value was accepted
   in round k or later. Under the documented rule one such promise is enough, under the literal
   loop every promise has to be one.
   */
  lemma ChoiceReachesBack(rule: Rule, own: Entry, promises: seq<Promised>, k: nat) returns (i: nat)
    requires 0 < k
    requires promises != []
    requires rule.Documented? ==> exists j :: 0 <= j < |promises| && k <= promises[j].vrnd
    requires rule.Literal? ==> forall j :: 0 <= j < |promises| ==> k <= promises[j].vrnd
    ensures i < |promises| && k <= promises[i].vrnd
    ensures promises[i].vval == Choose(rule, own, promises)
  {
    match rule
    case Literal =>
      i := |promises| - 1;
    case Documented =>
      MaxVrndIsMax(promises);
      DocumentedTakesHighest(own, promises);
      i :| 0 <= i < |promises| && promises[i].vrnd == MaxVrnd(promises)
           && promises[i].vval == DocumentedChoice(own, promises);
  }

  /** Either rule returns the proposer's own value or one that some promise reports as accepted. */
  lemma ChoiceIsOwnOrReported(rule: Rule, own: Entry, promises: seq<Promised>)
    ensures Choose(rule, own, promises) == own
            || exists i :: 0 <= i < |promises| && promises[i].vrnd > 0
                           && promises[i].vval == Choose(rule, own, promises)
  {
    match rule
    case Documented =>
      DocumentedTakesHighest(own, promises);
    case Literal =>
      LiteralIsOwnOrReported(own, promises);
  }

  lemma {:induction false} LiteralIsOwnOrReported(own: Entry, promises: seq<Promised>)
    ensures LiteralChoice(own, promises) == own
            || exists i :: 0 <= i < |promises| && promises[i].vrnd > 0
                           && promises[i].vval == LiteralChoice(own, promises)
  {
    if promises != [] && promises[|promises| - 1].vrnd == 0 {
      var rest := promises[..|promises| - 1];
      LiteralIsOwnOrReported(own, rest);
      if LiteralChoice(own, rest) != own {
        var i :| 0 <= i < |rest| && rest[i].vrnd > 0 && rest[i].vval == LiteralChoice(own, rest);
        assert promises[i].vrnd > 0 && promises[i].vval == LiteralChoice(own, promises);
      }
    } else if promises != [] {
      assert promises[|promises| - 1].vval == LiteralChoice(own, promises);
    }
  }

  // ----- The five handlers -----

  /** std::unordered_map::insert: an existing key keeps its value. */
  function InsertNew<T>(m: map<nat, T>, k: nat, v: T): map<nat, T> {
    if k in m then m else m[k := v]
  }

  // Proposal numbers are 32-bit numbers.
  const NUMBERS: nat := 0x1_0000_0000
  const LAST_NUMBER: nat := NUMBERS - 1

  /** A 32-bit sum of the latest number and a random number from 0 to 999. */
  function NextProposalNumber(latest: nat, random: nat): nat {
    (latest + random) % NUMBERS
  }

  // Whether proposers may use any number, or only those that the program can draw.
  datatype Numbers = AnyNumber | DrawnNumber

  /** A number that the program can draw next: the random number is from 0 to 999. */
  ghost predicate Drawn(latest: nat, number: nat) {
    exists random: nat :: random < 1000 && number == NextProposalNumber(latest, random)
  }

  /**
   A new number is above the last exactly when the draw is not 0 and the sum does not wrap around,
   and above 0 exactly when the sum is neither 0 nor wraps around to it.
  */
  lemma ProposalNumberGrowsIff(latest: nat, random: nat)
    requires latest < NUMBERS && random < 1000
    ensures NextProposalNumber(latest, random) > latest <==> random > 0 && latest + random < NUMBERS
    ensures NextProposalNumber(latest, random) > 0 <==> latest + random != 0 && latest + random != NUMBERS
  {
    if latest + random >= NUMBERS {
      assert NextProposalNumber(latest, random) == latest + random - NUMBERS;
    }
  }

  function OnPropose(node: Node, number: nat, e: Entry): Effect {
    Effect(
      node.(latest := number,
            proposal := InsertNew(node.proposal, number, e),
            promises := InsertNew(node.promises, number, [])),
      ToAll(Prepare(number)), None, false)
  }

  function OnPrepare(node: Node, from: nat, rnd: nat): Effect {
    if rnd > node.rnd then
      Effect(node.(rnd := rnd), To(from, Promise(rnd, node.vrnd, node.vval)), None, false)
    else
      Effect(node, Silent, None, false)
  }

  function OnPromise(rule: Rule, threshold: nat, node: Node, from: nat, rnd: nat, vrnd: nat, vval: Entry): Effect {
    if rnd !in node.promises then
      Effect(node, Silent, None, true)
    else if |node.promises[rnd]| >= threshold then
      Effect(node, Silent, None, false)
    else
      var promises := node.promises[rnd] + [Promised(from, vrnd, vval)];
      var next := node.(promises := node.promises[rnd := promises]);
      if |promises| != threshold then
        Effect(next, Silent, None, false)
      else if rnd !in node.proposal then
        Effect(next, Silent, None, true)
      else
        Effect(next, ToAll(Accept(rnd, Choose(rule, node.proposal[rnd], promises))), None, false)
  }

  function OnAccept(node: Node, vrnd: nat, vval: Entry): Effect {
    if vrnd >= node.rnd then
      Effect(node.(rnd := vrnd, vrnd := vrnd, vval := vval), ToAll(Learn(vrnd, vval)), None, false)
    else
      Effect(node, Silent, None, false)
  }

  function OnLearn(threshold: nat, node: Node, from: nat, vrnd: nat, vval: Entry): Effect {
    if node.learned then
      Effect(node, Silent, None, false)
    else
      var tallies := InsertNew(node.tallies, vrnd, Tally(vval, []));
      var tally := tallies[vrnd];
      if |tally.from| >= threshold then
        Effect(node.(tallies := tallies), Silent, None, false)
      else
        var counted := tally.(from := tally.from + [from]);
        var next := node.(tallies := tallies[vrnd := counted]);
        if |counted.from| == threshold then
          Effect(next.(learned := true), Silent, Some(tally.vval), false)
        else
          Effect(next, Silent, None, false)
  }

  function OnMessage(rule: Rule, threshold: nat, node: Node, from: nat, msg: Msg): Effect {
    match msg
    case Prepare(rnd) => OnPrepare(node, from, rnd)
    case Promise(rnd, vrnd, vval) => OnPromise(rule, threshold, node, from, rnd, vrnd, vval)
    case Accept(vrnd, vval) => OnAccept(node, vrnd, vval)
    case Learn(vrnd, vval) => OnLearn(threshold, node, from, vrnd, vval)
  }

  // ----- What each handler leaves alone, and what it answers -----

  ghost predicate SameLearner(x: Node, y: Node) {
    x.learned == y.learned && x.tallies == y.tallies
  }

  ghost predicate SameProposer(x: Node, y: Node) {
    x.latest == y.latest && x.promises == y.promises && x.proposal == y.proposal
  }

  ghost predicate SameAcceptor(x: Node, y: Node) {
    x.rnd == y.rnd && x.vrnd == y.vrnd && x.vval == y.vval
  }

  ghost function NumberOf(msg: Msg): nat {
    match msg
    case Prepare(rnd) => rnd
    case Promise(rnd, _, _) => rnd
    case Accept(vrnd, _) => vrnd
    case Learn(vrnd, _) => vrnd
  }

  /** Each message concerns one role of the node, and leaves the other two as they are. */
  lemma RolesAreSeparate(rule: Rule, threshold: nat, node: Node, from: nat, msg: Msg)
    ensures
      var next := OnMessage(rule, threshold, node, from, msg).node;
      && (msg.Prepare? || msg.Accept? || SameAcceptor(node, next))
      && (msg.Promise? || SameProposer(node, next))
      && (msg.Learn? || SameLearner(node, next))
      && next.latest == node.latest && next.proposal == node.proposal
  {
  }

  /** The other numbers are never touched either: neither their promises nor their counts. */
  lemma RoundsAreSeparate(rule: Rule, threshold: nat, node: Node, from: nat, msg: Msg, r: nat)
    requires r != NumberOf(msg)
    ensures
      var next := OnMessage(rule, threshold, node, from, msg).node;
      && (r in next.promises <==> r in node.promises) && (r in next.tallies <==> r in node.tallies)
      && (r in node.promises ==> next.promises[r] == node.promises[r])
      && (r in node.tallies ==> next.tallies[r] == node.tallies[r])
  {
  }

  /**
   An acceptor's number never goes down and never exceeds what it was asked for; it answers a Prepare
   exactly when that raises it, an Accept exactly when that does not lower it, and accepts only then.
  */
  lemma AcceptorAnswersIff(rule: Rule, threshold: nat, node: Node, from: nat, msg: Msg)
    requires msg.Prepare? || msg.Accept?
    ensures
      var eff := OnMessage(rule, threshold, node, from, msg);
      var r := NumberOf(msg);
      && eff.node.rnd == (if r > node.rnd then r else node.rnd)
      && (eff.send != Silent <==> if msg.Prepare? then node.rnd < r else node.rnd <= r)
      && (eff.send == Silent ==> eff.node == node)
      && (msg.Prepare? ==> eff.node.vrnd == node.vrnd && eff.node.vval == node.vval)
      && (msg.Accept? && eff.send != Silent ==> eff.node.vrnd == r && eff.node.vval == msg.vval)
  {
  }

  /**
   An assertion fails exactly for a promise of a number that was never proposed, or whose value is missing
   when the quorum is complete. A promise sends something exactly when it completes the quorum: Accept to all.
  */
  lemma PromiseAnswersIff(rule: Rule, threshold: nat, node: Node, from: nat, msg: Msg)
    ensures
      var eff := OnMessage(rule, threshold, node, from, msg);
      var r := NumberOf(msg);
      var completes := r in node.promises && |node.promises[r]| + 1 == threshold;
      && (eff.failed <==> msg.Promise? && (r !in node.promises || (completes && r !in node.proposal)))
      && (msg.Promise? ==>
            && (eff.send != Silent <==> completes && r in node.proposal)
            && (eff.send != Silent ==> eff.send.ToAll? && eff.send.msg.Accept? && eff.send.msg.vrnd == r))
  {
  }

  /**
   A learner writes exactly when it learns, and what it has learned stops it for good. It writes the value
   that was first heard in the round, and until then it counts each message of a round up to the threshold.
  */
  lemma WritesIffLearns(rule: Rule, threshold: nat, node: Node, from: nat, msg: Msg)
    ensures
      var eff := OnMessage(rule, threshold, node, from, msg);
      && (eff.wrote.Some? <==> !node.learned && eff.node.learned)
      && (node.learned ==> eff.node.learned)
      && (node.learned && msg.Learn? ==> eff.node == node)
      && (msg.Learn? ==> eff.send == Silent && !eff.failed)
      && (msg.Learn? && !node.learned ==>
            var r := NumberOf(msg);
            var before := if r in node.tallies then node.tallies[r] else Tally(msg.vval, []);
            && r in eff.node.tallies && eff.node.tallies[r].vval == before.vval
            && eff.node.tallies[r].from == before.from + (if |before.from| < threshold then [from] else [])
            && (eff.wrote.Some? <==> |before.from| + 1 == threshold)
            && (eff.wrote.Some? ==> eff.wrote.value == before.vval))
  {
  }
}
