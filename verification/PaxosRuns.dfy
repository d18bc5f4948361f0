/**
 Building runs of a Paxos instance: from a state on, a proposer can take a value through a round
 with acceptors of its choice, as far as the acceptors' numbers allow. The round may be one that it
 has gathered some promises for already.
*/
module PaxosRuns {
  import opened Paths
  import opened Wrappers
  import opened Entries
  import opened PaxosNode
  import opened PaxosProtocol

  // ----- Steps of one proposer -----

  /** A message arrives, and nobody writes to its log. */
  ghost predicate Silently(g: Group, s: System, s': System) {
    exists e :: e in s.net && e.dst < |s.nodes| && Received(g, s, e).wrote.None? && s' == AfterDeliver(g, s, e)
  }

  ghost predicate Drops(s: System, s': System) {
    exists e :: e in s.net && s' == s.(net := s.net - multiset{e})
  }

  /** Node p proposes v under a number that the program can draw. */
  ghost predicate ProposesDrawn(g: Group, s: System, s': System, p: nat, v: Entry) {
    && p < |s.nodes|
    && exists number :: Drawn(s.nodes[p].latest, number) && s' == AfterPropose(g, s, p, number, v)
  }

  /** The message that makes node l write w. */
  ghost predicate Writes(g: Group, s: System, s': System, l: nat, w: Entry) {
    exists e ::
      e in s.net && e.dst == l < |s.nodes| && Received(g, s, e).wrote == Some(w) && s' == AfterDeliver(g, s, e)
  }

  ghost function SilentSteps(g: Group): Relation<System> {
    (s, s') => Silently(g, s, s')
  }

  /** Only p proposes, and only v; nobody writes. */
  ghost function SoloSteps(g: Group, p: nat, v: Entry): Relation<System> {
    (s, s') => Silently(g, s, s') || Drops(s, s') || ProposesDrawn(g, s, s', p, v)
  }

  lemma SilentIsNext(g: Group, s: System, s': System)
    requires Silently(g, s, s')
    ensures Next(g, s, s')
  {
    var e :| e in s.net && e.dst < |s.nodes| && s' == AfterDeliver(g, s, e);
    assert StepOf(g, s, s', Deliver(e));
  }

  lemma SoloIsNext(g: Group, s: System, s': System, p: nat, v: Entry)
    requires SoloSteps(g, p, v)(s, s')
    ensures Next(g, s, s')
  {
    if Silently(g, s, s') {
      SilentIsNext(g, s, s');
    } else if e :| e in s.net && s' == s.(net := s.net - multiset{e}) {
      assert StepOf(g, s, s', Lose(e));
    } else {
      var number :| Drawn(s.nodes[p].latest, number) && s' == AfterPropose(g, s, p, number, v);
      assert StepOf(g, s, s', Propose(p, number, v));
    }
  }

  lemma WriteIsNext(g: Group, s: System, s': System, l: nat, w: Entry)
    requires Writes(g, s, s', l, w)
    ensures Next(g, s, s') && Output(l, w) in s'.outputs
  {
    var e :| e in s.net && e.dst == l < |s.nodes| && Received(g, s, e).wrote == Some(w) && s' == AfterDeliver(g, s, e);
    assert StepOf(g, s, s', Deliver(e));
  }

  lemma SoloLeads(g: Group, p: nat, v: Entry, s: System, s': System)
    requires Leads(SoloSteps(g, p, v), s, s')
    ensures Leads(Steps(g), s, s')
  {
    forall x, y | SoloSteps(g, p, v)(x, y)
      ensures Steps(g)(x, y)
    {
      SoloIsNext(g, x, y, p, v);
    }
    LeadsWidens(SoloSteps(g, p, v), Steps(g), s, s');
  }

  lemma SilentAfterSolo(g: Group, p: nat, v: Entry, s: System, m: System, s': System)
    requires Leads(SoloSteps(g, p, v), s, m) && Leads(SilentSteps(g), m, s')
    ensures Leads(SoloSteps(g, p, v), s, s')
  {
    LeadsWidens(SilentSteps(g), SoloSteps(g, p, v), m, s');
    LeadsThrough(SoloSteps(g, p, v), s, m, s');
  }

  lemma SilentKeepsProposed(g: Group, s: System, s': System)
    requires Leads(SilentSteps(g), s, s')
    ensures s'.proposed == s.proposed
  {
    LeadsKeeps(SilentSteps(g), (x: System) => x.proposed == s.proposed, s, s');
  }

  lemma DrawnNear(latest: nat, random: nat)
    requires random < 1000 && latest + random < NUMBERS
    ensures Drawn(latest, latest + random)
  {
    assert NextProposalNumber(latest, random) == latest + random;
  }

  lemma Receive(g: Group, s: System, e: Envelope) returns (s': System)
    requires e in s.net && e.dst < |s.nodes| && Received(g, s, e).wrote.None?
    ensures Leads(SilentSteps(g), s, s') && s'.outputs == s.outputs
    ensures s'.nodes == s.nodes[e.dst := Received(g, s, e).node]
    ensures forall x :: x in s.net && x != e ==> x in s'.net
    ensures forall x :: x in Envelopes(g, e.dst, Received(g, s, e).send) ==> x in s'.net
  {
    s' := AfterDeliver(g, s, e);
    LeadsToItself(SilentSteps(g), s);
    LeadsOn(SilentSteps(g), s, s, s');
  }

  // ----- The three phases of a round -----

  /** Different nodes, in some order. */
  ghost predicate Quorum(g: Group, order: seq<nat>) {
    && (forall i :: 0 <= i < |order| ==> order[i] < g.n)
    && (forall i, j :: 0 <= i < j < |order| ==> order[i] != order[j])
  }

  lemma AllButLast(g: Group, order: seq<nat>)
    requires Quorum(g, order) && order != []
    ensures
      var rest, a := order[..|order| - 1], order[|order| - 1];
      && order == rest + [a] && Quorum(g, rest) && a < g.n && a !in rest && a in order
      && forall b :: b in rest ==> b in order
  {
  }

  function Reports(s: System, order: seq<nat>): seq<Promised>
    requires forall i :: 0 <= i < |order| ==> order[i] < |s.nodes|
  {
    seq(|order|, i requires 0 <= i < |order| =>
      Promised(order[i], s.nodes[order[i]].vrnd, s.nodes[order[i]].vval))
  }

  /** The promises that a proposer has for a number, and the value that it proposes under it. */
  function Held(x: Node, r: nat): seq<Promised> {
    if r in x.promises then x.promises[r] else []
  }

  function OwnValue(x: Node, r: nat, v: Entry): Entry {
    if r in x.proposal then x.proposal[r] else v
  }

  /** What p chooses for round r once `order` has promised too. */
  function RoundValue(g: Group, s: System, p: nat, r: nat, v: Entry, order: seq<nat>): Entry
    requires p < |s.nodes| && forall i :: 0 <= i < |order| ==> order[i] < |s.nodes|
  {
    Choose(g.rule, OwnValue(s.nodes[p], r, v), Held(s.nodes[p], r) + Reports(s, order))
  }

  lemma SameInAll(x: Node, y: Node)
    requires SameLearner(x, y) && SameProposer(x, y) && SameAcceptor(x, y)
    ensures x == y
  {
  }

  lemma Begin(g: Group, s: System, p: nat, r: nat, v: Entry) returns (s': System)
    requires |s.nodes| == g.n && p < g.n && Drawn(s.nodes[p].latest, r)
    ensures Leads(SoloSteps(g, p, v), s, s') && s'.outputs == s.outputs && v in s'.proposed
    ensures s'.nodes == s.nodes[p := OnPropose(s.nodes[p], r, v).node]
    ensures forall d :: 0 <= d < g.n ==> Envelope(p, d, Prepare(r)) in s'.net
  {
    s' := AfterPropose(g, s, p, r, v);
    LeadsToItself(SoloSteps(g, p, v), s);
    LeadsOn(SoloSteps(g, p, v), s, s, s');
    forall d | 0 <= d < g.n
      ensures Envelope(p, d, Prepare(r)) in s'.net
    {
      assert Envelope(p, d, Prepare(r)) in Fanout(g.n, p, Prepare(r));
    }
  }

  lemma ReachesAll(g: Group, p: nat, msg: Msg)
    ensures forall d :: 0 <= d < g.n ==> Envelope(p, d, msg) in Envelopes(g, p, ToAll(msg))
  {
  }

  // Acceptor a has promised r to p, and p has heard of it.
  ghost predicate PromisedTo(g: Group, s: System, s': System, p: nat, r: nat, a: nat)
    requires |s.nodes| == g.n && p < g.n && a < g.n && r in s.nodes[p].promises
  {
    && |s'.nodes| == g.n && s'.outputs == s.outputs
    && (forall b :: 0 <= b < g.n ==> SameLearner(s.nodes[b], s'.nodes[b]))
    && (forall b :: 0 <= b < g.n && b != p ==> SameProposer(s.nodes[b], s'.nodes[b]))
    && (forall b :: 0 <= b < g.n && b != a ==> SameAcceptor(s.nodes[b], s'.nodes[b]))
    && s'.nodes[a].rnd == r && s'.nodes[a].vrnd == s.nodes[a].vrnd && s'.nodes[a].vval == s.nodes[a].vval
    && s'.nodes[p].latest == s.nodes[p].latest && s'.nodes[p].proposal == s.nodes[p].proposal
    && s'.nodes[p].promises
       == s.nodes[p].promises[r := s.nodes[p].promises[r] + [Promised(a, s.nodes[a].vrnd, s.nodes[a].vval)]]
  }

  lemma OnePromise(g: Group, s: System, p: nat, r: nat, a: nat) returns (s': System)
    requires |s.nodes| == g.n && p < g.n && a < g.n
    requires Envelope(p, a, Prepare(r)) in s.net && s.nodes[a].rnd < r
    requires r in s.nodes[p].promises && r in s.nodes[p].proposal && |s.nodes[p].promises[r]| < g.threshold
    ensures Leads(SilentSteps(g), s, s') && PromisedTo(g, s, s', p, r, a)
    ensures forall d :: 0 <= d < g.n && d != a && Envelope(p, d, Prepare(r)) in s.net ==>
      Envelope(p, d, Prepare(r)) in s'.net
    ensures |s'.nodes[p].promises[r]| == g.threshold ==>
      forall d :: 0 <= d < g.n ==>
        Envelope(p, d, Accept(r, Choose(g.rule, s.nodes[p].proposal[r], s'.nodes[p].promises[r]))) in s'.net
  {
    var prepare := Envelope(p, a, Prepare(r));
    var m := Receive(g, s, prepare);
    var promise := Envelope(a, p, Promise(r, s.nodes[a].vrnd, s.nodes[a].vval));
    assert promise in Envelopes(g, a, Received(g, s, prepare).send);
    assert SameProposer(m.nodes[p], s.nodes[p]);
    s' := Receive(g, m, promise);
    LeadsThrough(SilentSteps(g), s, m, s');
    if |s'.nodes[p].promises[r]| == g.threshold {
      var accept := Accept(r, Choose(g.rule, s.nodes[p].proposal[r], s'.nodes[p].promises[r]));
      assert Received(g, m, promise).send == ToAll(accept);
      ReachesAll(g, p, accept);
    }
  }

  // What round r of proposer p leaves behind once `order` has promised.
  ghost predicate RoundPromised(g: Group, s: System, s': System, p: nat, r: nat, v: Entry, order: seq<nat>)
    requires |s.nodes| == g.n && p < g.n && Quorum(g, order)
  {
    && |s'.nodes| == g.n && s'.outputs == s.outputs
    && (forall b :: 0 <= b < g.n ==> SameLearner(s.nodes[b], s'.nodes[b]))
    && (forall b :: 0 <= b < g.n && b != p ==> SameProposer(s.nodes[b], s'.nodes[b]))
    && (forall b :: 0 <= b < g.n && b !in order ==> SameAcceptor(s.nodes[b], s'.nodes[b]))
    && (forall b :: 0 <= b < g.n && b in order ==>
          s'.nodes[b].rnd == r && s'.nodes[b].vrnd == s.nodes[b].vrnd && s'.nodes[b].vval == s.nodes[b].vval)
    && s'.nodes[p].latest == r
    && s'.nodes[p].proposal == s.nodes[p].proposal[r := OwnValue(s.nodes[p], r, v)]
    && s'.nodes[p].promises == s.nodes[p].promises[r := Held(s.nodes[p], r) + Reports(s, order)]
  }

  lemma HeldNext(s: System, held: seq<Promised>, order: seq<nat>, a: nat)
    requires a < |s.nodes| && forall i :: 0 <= i < |order| ==> order[i] < |s.nodes|
    ensures held + Reports(s, order + [a])
            == held + Reports(s, order) + [Promised(a, s.nodes[a].vrnd, s.nodes[a].vval)]
  {
    assert Reports(s, order + [a]) == Reports(s, order) + [Promised(a, s.nodes[a].vrnd, s.nodes[a].vval)];
  }

  lemma PromisedNext(g: Group, s: System, m: System, s': System, p: nat, r: nat, v: Entry, order: seq<nat>, a: nat)
    requires |s.nodes| == g.n && p < g.n && a < g.n && Quorum(g, order) && a !in order
    requires RoundPromised(g, s, m, p, r, v, order) && PromisedTo(g, m, s', p, r, a)
    ensures Quorum(g, order + [a]) && RoundPromised(g, s, s', p, r, v, order + [a])
    ensures s'.nodes[p].promises[r] == Held(s.nodes[p], r) + Reports(s, order + [a])
  {
    assert SameAcceptor(s.nodes[a], m.nodes[a]);
    HeldNext(s, Held(s.nodes[p], r), order, a);
    assert forall b :: b in order + [a] <==> b in order || b == a;
  }

  // The Prepare messages of those yet to promise are there, and the Accept messages at the end.
  ghost predicate RoundSent(g: Group, s: System, s': System, p: nat, r: nat, v: Entry, order: seq<nat>)
    requires |s.nodes| == g.n && p < g.n && Quorum(g, order)
  {
    && (forall d :: 0 <= d < g.n && d !in order ==> Envelope(p, d, Prepare(r)) in s'.net)
    && (order != [] && |Held(s.nodes[p], r)| + |order| == g.threshold ==>
          forall d :: 0 <= d < g.n ==> Envelope(p, d, Accept(r, RoundValue(g, s, p, r, v, order))) in s'.net)
  }

  lemma PrepareNext(g: Group, s: System, m: System, p: nat, r: nat, v: Entry, order: seq<nat>, a: nat)
    returns (s': System)
    requires |s.nodes| == g.n && p < g.n && a < g.n && |Held(s.nodes[p], r)| + |order| < g.threshold
    requires Quorum(g, order) && a !in order && s.nodes[a].rnd < r
    requires RoundPromised(g, s, m, p, r, v, order) && RoundSent(g, s, m, p, r, v, order)
    ensures Leads(SilentSteps(g), m, s') && Quorum(g, order + [a])
    ensures RoundPromised(g, s, s', p, r, v, order + [a]) && RoundSent(g, s, s', p, r, v, order + [a])
  {
    assert SameAcceptor(s.nodes[a], m.nodes[a]);
    s' := OnePromise(g, m, p, r, a);
    PromisedNext(g, s, m, s', p, r, v, order, a);
  }

  lemma PrepareBegins(g: Group, s: System, p: nat, r: nat, v: Entry) returns (s': System)
    requires |s.nodes| == g.n && p < g.n && Drawn(s.nodes[p].latest, r)
    ensures Leads(SoloSteps(g, p, v), s, s') && v in s'.proposed
    ensures RoundPromised(g, s, s', p, r, v, []) && RoundSent(g, s, s', p, r, v, [])
  {
    s' := Begin(g, s, p, r, v);
    assert Held(s.nodes[p], r) + Reports(s, []) == Held(s.nodes[p], r);
  }

  lemma {:induction false} PreparePhase(g: Group, s: System, p: nat, r: nat, v: Entry, order: seq<nat>)
    returns (s': System)
    requires |s.nodes| == g.n && p < g.n && Quorum(g, order)
    requires |Held(s.nodes[p], r)| + |order| <= g.threshold && Drawn(s.nodes[p].latest, r)
    requires forall a :: a in order && a < g.n ==> s.nodes[a].rnd < r
    ensures Leads(SoloSteps(g, p, v), s, s') && v in s'.proposed
    ensures RoundPromised(g, s, s', p, r, v, order) && RoundSent(g, s, s', p, r, v, order)
  {
    if order == [] {
      s' := PrepareBegins(g, s, p, r, v);
    } else {
      var rest, a := order[..|order| - 1], order[|order| - 1];
      AllButLast(g, order);
      var m := PreparePhase(g, s, p, r, v, rest);
      s' := PrepareNext(g, s, m, p, r, v, rest, a);
      SilentKeepsProposed(g, m, s');
      SilentAfterSolo(g, p, v, s, m, s');
    }
  }

  // The nodes in `order` have accepted v in round r, and told everyone.
  ghost predicate AcceptedBy(g: Group, s: System, s': System, r: nat, v: Entry, order: seq<nat>)
    requires |s.nodes| == g.n
  {
    && |s'.nodes| == g.n && s'.outputs == s.outputs
    && (forall b :: 0 <= b < g.n ==> SameLearner(s.nodes[b], s'.nodes[b]) && SameProposer(s.nodes[b], s'.nodes[b]))
    && (forall b :: 0 <= b < g.n && b !in order ==> SameAcceptor(s.nodes[b], s'.nodes[b]))
    && (forall b :: 0 <= b < g.n && b in order ==>
          s'.nodes[b].rnd == r && s'.nodes[b].vrnd == r && s'.nodes[b].vval == v)
    && (forall e :: e in s.net && !(e.msg.Accept? && e.dst in order) ==> e in s'.net)
    && (forall a, l :: a in order && a < g.n && 0 <= l < g.n ==> Envelope(a, l, Learn(r, v)) in s'.net)
  }

  lemma OneAccept(g: Group, s: System, p: nat, r: nat, v: Entry, a: nat) returns (s': System)
    requires |s.nodes| == g.n && a < g.n
    requires Envelope(p, a, Accept(r, v)) in s.net && s.nodes[a].rnd <= r
    ensures Leads(SilentSteps(g), s, s') && AcceptedBy(g, s, s', r, v, [a])
  {
    var e := Envelope(p, a, Accept(r, v));
    s' := Receive(g, s, e);
    ReachesAll(g, a, Learn(r, v));
    assert Received(g, s, e).send == ToAll(Learn(r, v));
  }

  lemma AcceptedNext(g: Group, s: System, m: System, s': System, r: nat, v: Entry, order: seq<nat>, a: nat)
    requires |s.nodes| == g.n && AcceptedBy(g, s, m, r, v, order) && AcceptedBy(g, m, s', r, v, [a])
    ensures AcceptedBy(g, s, s', r, v, order + [a])
  {
    assert forall b :: b in order + [a] <==> b in order || b == a;
    forall b | 0 <= b < g.n && b !in order + [a]
      ensures SameAcceptor(s.nodes[b], s'.nodes[b])
    {
      assert SameAcceptor(s.nodes[b], m.nodes[b]) && SameAcceptor(m.nodes[b], s'.nodes[b]);
    }
  }

  lemma {:induction false} AcceptPhase(g: Group, s: System, p: nat, r: nat, v: Entry, order: seq<nat>)
    returns (s': System)
    requires |s.nodes| == g.n && Quorum(g, order)
    requires forall a :: a in order && a < g.n ==> Envelope(p, a, Accept(r, v)) in s.net && s.nodes[a].rnd <= r
    ensures Leads(SilentSteps(g), s, s') && AcceptedBy(g, s, s', r, v, order)
  {
    if order == [] {
      s' := s;
      LeadsToItself(SilentSteps(g), s);
    } else {
      var rest, a := order[..|order| - 1], order[|order| - 1];
      AllButLast(g, order);
      var m := AcceptPhase(g, s, p, r, v, rest);
      assert SameAcceptor(s.nodes[a], m.nodes[a]);
      s' := OneAccept(g, m, p, r, v, a);
      AcceptedNext(g, s, m, s', r, v, rest, a);
      LeadsThrough(SilentSteps(g), s, m, s');
    }
  }

  // Node l has learned nothing yet and counted `order` for round r, or it wrote v.
  ghost predicate Tallied(g: Group, s: System, s': System, r: nat, v: Entry, order: seq<nat>, l: nat)
    requires |s.nodes| == g.n && l < g.n
  {
    && |s'.nodes| == g.n
    && (forall b :: 0 <= b < g.n ==> SameAcceptor(s.nodes[b], s'.nodes[b]) && SameProposer(s.nodes[b], s'.nodes[b]))
    && (forall b :: 0 <= b < g.n && b != l ==> SameLearner(s.nodes[b], s'.nodes[b]))
    && (|order| < g.threshold ==> !s'.nodes[l].learned && s'.outputs == s.outputs)
    && (order == [] ==> r !in s'.nodes[l].tallies)
    && (order != [] ==> r in s'.nodes[l].tallies && s'.nodes[l].tallies[r] == Tally(v, order))
  }

  lemma OneLearn(g: Group, s: System, m: System, r: nat, v: Entry, order: seq<nat>, a: nat, l: nat)
    returns (s': System)
    requires |s.nodes| == g.n && l < g.n && |order| < g.threshold
    requires Tallied(g, s, m, r, v, order, l)
    requires Envelope(a, l, Learn(r, v)) in m.net
    ensures Tallied(g, s, s', r, v, order + [a], l)
    ensures forall e :: e in m.net && e.src != a ==> e in s'.net
    ensures if |order| + 1 < g.threshold then Leads(SilentSteps(g), m, s') else Writes(g, m, s', l, v)
  {
    var e := Envelope(a, l, Learn(r, v));
    s' := AfterDeliver(g, m, e);
    if order == [] {
      assert order + [a] == [a];
    }
    if |order| + 1 < g.threshold {
      s' := Receive(g, m, e);
    }
  }

  /** Node l counts the learn messages from `order`, which are not yet a quorum. */
  lemma {:induction false} LearnPhase(g: Group, s: System, r: nat, v: Entry, order: seq<nat>, l: nat)
    returns (s': System)
    requires |s.nodes| == g.n && l < g.n && Quorum(g, order) && |order| < g.threshold
    requires !s.nodes[l].learned && r !in s.nodes[l].tallies
    requires forall a :: a in order ==> Envelope(a, l, Learn(r, v)) in s.net
    ensures Leads(SilentSteps(g), s, s') && Tallied(g, s, s', r, v, order, l)
    ensures forall e :: e in s.net && e.src !in order ==> e in s'.net
  {
    if order == [] {
      s' := s;
      LeadsToItself(SilentSteps(g), s);
    } else {
      var rest, a := order[..|order| - 1], order[|order| - 1];
      AllButLast(g, order);
      var m := LearnPhase(g, s, r, v, rest, l);
      s' := OneLearn(g, s, m, r, v, rest, a, l);
      LeadsThrough(SilentSteps(g), s, m, s');
    }
  }

  // ----- Whole rounds -----

  function Interval(lo: nat, len: nat): (s: seq<nat>)
    ensures |s| == len
    ensures forall i :: 0 <= i < len ==> s[i] == lo + i
  {
    seq(len, i requires 0 <= i < len => lo + i)
  }

  lemma InInterval(lo: nat, len: nat)
    ensures forall a :: a in Interval(lo, len) <==> lo <= a < lo + len
  {
    forall a | lo <= a < lo + len
      ensures a in Interval(lo, len)
    {
      assert Interval(lo, len)[a - lo] == a;
    }
  }

  lemma {:induction false} SilentReports(rule: Rule, own: Entry, promises: seq<Promised>)
    requires forall i :: 0 <= i < |promises| ==> promises[i].vrnd == 0
    ensures Choose(rule, own, promises) == own
    ensures MaxVrnd(promises) == 0
  {
    if promises != [] {
      SilentReports(rule, own, promises[..|promises| - 1]);
    }
  }

  // What a whole round changes: the acceptors of `order` and `accepting`, and proposer p's record of round r.
  ghost predicate RoundDone(
    g: Group, s: System, s': System, p: nat, r: nat, order: seq<nat>, accepting: seq<nat>, w: Entry)
  {
    && |s.nodes| == g.n == |s'.nodes|
    && (forall b :: 0 <= b < g.n && b in accepting ==> s'.nodes[b].vrnd == r && s'.nodes[b].vval == w)
    && (forall b :: 0 <= b < g.n && b !in accepting ==>
          s'.nodes[b].vrnd == s.nodes[b].vrnd && s'.nodes[b].vval == s.nodes[b].vval)
    && (forall b :: 0 <= b < g.n ==>
          s'.nodes[b].rnd == if b in order || b in accepting then r else s.nodes[b].rnd)
    && (forall b :: 0 <= b < g.n ==> s'.nodes[b].latest == if b == p then r else s.nodes[b].latest)
    && (forall b :: 0 <= b < g.n ==>
          && s'.nodes[b].promises.Keys == s.nodes[b].promises.Keys + (if b == p then {r} else {})
          && s'.nodes[b].proposal.Keys == s.nodes[b].proposal.Keys + (if b == p then {r} else {}))
  }

  lemma RoundJoins(
    g: Group, s: System, m: System, s': System, p: nat, r: nat, v: Entry, order: seq<nat>, accepting: seq<nat>,
    w: Entry)
    requires |s.nodes| == g.n && p < g.n && Quorum(g, order)
    requires RoundPromised(g, s, m, p, r, v, order) && AcceptedBy(g, m, s', r, w, accepting)
    ensures RoundDone(g, s, s', p, r, order, accepting, w)
    ensures forall b :: 0 <= b < g.n ==> SameLearner(s.nodes[b], s'.nodes[b])
    ensures forall b :: 0 <= b < g.n && b != p && b !in order && b !in accepting ==> s'.nodes[b] == s.nodes[b]
  {
    forall b | 0 <= b < g.n && b !in accepting
      ensures SameAcceptor(m.nodes[b], s'.nodes[b])
    {
    }
    forall b | 0 <= b < g.n && b != p && b !in order && b !in accepting
      ensures s'.nodes[b] == s.nodes[b]
    {
      SameInAll(s.nodes[b], m.nodes[b]);
      SameInAll(m.nodes[b], s'.nodes[b]);
    }
  }

  /** Acceptors that p can have for its Accept messages of round r. */
  ghost predicate CanAccept(g: Group, s: System, r: nat, order: seq<nat>, accepting: seq<nat>)
    requires |s.nodes| == g.n
  {
    Quorum(g, accepting) && forall a :: a in accepting && a < g.n ==> a in order || s.nodes[a].rnd <= r
  }

  /** Round r of p: `order` completes the promises, `accepting` accepts. */
  lemma Round(g: Group, s: System, p: nat, r: nat, v: Entry, order: seq<nat>, accepting: seq<nat>)
    returns (s': System)
    requires |s.nodes| == g.n && p < g.n && Quorum(g, order) && Drawn(s.nodes[p].latest, r)
    requires order != [] && |Held(s.nodes[p], r)| + |order| == g.threshold
    requires forall a :: a in order && a < g.n ==> s.nodes[a].rnd < r
    requires CanAccept(g, s, r, order, accepting)
    ensures Leads(SoloSteps(g, p, v), s, s') && s'.outputs == s.outputs && v in s'.proposed
    ensures RoundDone(g, s, s', p, r, order, accepting, RoundValue(g, s, p, r, v, order))
    ensures forall b :: 0 <= b < g.n ==> SameLearner(s.nodes[b], s'.nodes[b])
    ensures forall b :: 0 <= b < g.n && b != p && b !in order && b !in accepting ==> s'.nodes[b] == s.nodes[b]
    ensures forall a, l :: a in accepting && a < g.n && 0 <= l < g.n ==>
      Envelope(a, l, Learn(r, RoundValue(g, s, p, r, v, order))) in s'.net
  {
    var w := RoundValue(g, s, p, r, v, order);
    var m := PreparePhase(g, s, p, r, v, order);
    forall a | a in accepting && a < g.n
      ensures m.nodes[a].rnd <= r
    {
      assert a !in order ==> SameAcceptor(s.nodes[a], m.nodes[a]);
    }
    s' := AcceptPhase(g, m, p, r, w, accepting);
    SilentKeepsProposed(g, m, s');
    SilentAfterSolo(g, p, v, s, m, s');
    RoundJoins(g, s, m, s', p, r, v, order, accepting, w);
  }

  lemma LearningKeepsRound(
    g: Group, s: System, m: System, s': System, p: nat, r: nat, order: seq<nat>, accepting: seq<nat>, w: Entry,
    counted: seq<nat>, l: nat)
    requires RoundDone(g, s, m, p, r, order, accepting, w)
    requires l < g.n && Tallied(g, m, s', r, w, counted, l)
    ensures RoundDone(g, s, s', p, r, order, accepting, w)
    ensures forall b :: 0 <= b < g.n && b != l ==> s'.nodes[b] == m.nodes[b]
  {
    forall b | 0 <= b < g.n && b != l
      ensures s'.nodes[b] == m.nodes[b]
    {
      SameInAll(m.nodes[b], s'.nodes[b]);
    }
  }

  /** Then node l counts `accepting` and learns: the last message is the one that makes it write. */
  lemma LearnedRound(g: Group, s: System, p: nat, r: nat, v: Entry, order: seq<nat>, accepting: seq<nat>, l: nat)
    returns (m: System, s': System)
    requires |s.nodes| == g.n && p < g.n && Quorum(g, order) && Drawn(s.nodes[p].latest, r)
    requires order != [] && |Held(s.nodes[p], r)| + |order| == g.threshold
    requires forall a :: a in order && a < g.n ==> s.nodes[a].rnd < r
    requires CanAccept(g, s, r, order, accepting) && |accepting| == g.threshold
    requires l < g.n && !s.nodes[l].learned && r !in s.nodes[l].tallies
    ensures Leads(SoloSteps(g, p, v), s, m) && m.outputs == s.outputs && v in m.proposed
    ensures Writes(g, m, s', l, RoundValue(g, s, p, r, v, order))
    ensures RoundDone(g, s, s', p, r, order, accepting, RoundValue(g, s, p, r, v, order))
    ensures forall b :: 0 <= b < g.n && b != l ==> SameLearner(s.nodes[b], s'.nodes[b])
    ensures forall b :: 0 <= b < g.n && b != p && b != l && b !in order && b !in accepting ==>
      s'.nodes[b] == s.nodes[b]
  {
    var w := RoundValue(g, s, p, r, v, order);
    var x := Round(g, s, p, r, v, order, accepting);
    var rest, a := accepting[..|accepting| - 1], accepting[|accepting| - 1];
    AllButLast(g, accepting);
    m := LearnPhase(g, x, r, w, rest, l);
    SilentKeepsProposed(g, x, m);
    SilentAfterSolo(g, p, v, s, x, m);
    s' := OneLearn(g, x, m, r, w, rest, a, l);
    LearningKeepsRound(g, s, x, s', p, r, order, accepting, w, rest + [a], l);
  }
}
