/**
 When a Paxos instance is stuck. If every message in flight is lost, whether anyone can still learn a
 value is decided by what the nodes hold for the last 32-bit number.
*/
module PaxosStuck {
  import opened Paths
  import opened Wrappers
  import opened Entries
  import opened PaxosNode
  import opened PaxosProtocol
  import opened PaxosInvariant
  import opened PaxosRuns
  import opened PaxosProgress
  import opened FiniteSets

  // ----- What has happened since a state in which no message was in flight -----

  ghost predicate NewStart(s: System, x: System, p: nat, r: nat, v: Entry) {
    Started(x, p, r, v) && !Started(s, p, r, v)
  }

  ghost predicate NewAccept(s: System, x: System, a: nat, r: nat, v: Entry) {
    Accepted(x, a, r, v) && !Accepted(s, a, r, v)
  }

  ghost predicate NewPromise(s: System, x: System, a: nat, p: nat, r: nat, vr: nat, v: Entry) {
    Promises(x, a, p, r, vr, v) && !Promises(s, a, p, r, vr, v)
  }

  /** What is in flight was sent since. */
  ghost predicate NetSince(s: System, x: System) {
    forall e :: e in x.net ==>
      && (e.msg.Promise? ==> e !in s.sent)
      && (e.msg.Accept? ==> !Started(s, e.src, e.msg.vrnd, e.msg.vval))
      && (e.msg.Learn? ==> !Accepted(s, e.src, e.msg.vrnd, e.msg.vval))
  }

  ghost predicate AskedSince(g: Group, s: System, x: System, r: nat, v: Entry) {
    exists p :: 0 <= p < g.n && NewStart(s, x, p, r, v)
  }

  /** Acceptors promised and accepted nothing below the numbers that they had. */
  ghost predicate AcceptorsSince(g: Group, s: System, x: System) {
    && |s.nodes| == g.n == |x.nodes| && s.sent <= x.sent
    && (forall a :: 0 <= a < g.n ==> s.nodes[a].rnd <= x.nodes[a].rnd)
    && (forall a: nat, p: nat, r: nat, vr: nat, v :: NewPromise(s, x, a, p, r, vr, v) ==>
          a < g.n && s.nodes[a].rnd < r)
    && (forall a: nat, r: nat, v :: NewAccept(s, x, a, r, v) ==>
          a < g.n && s.nodes[a].rnd <= r && AskedSince(g, s, x, r, v))
  }

  /** The promises that p holds are those it held, and new ones. */
  ghost predicate HeldSince(g: Group, s: System, x: System, p: nat, r: nat)
    requires p < |s.nodes| == g.n == |x.nodes|
  {
    var before, after := Held(s.nodes[p], r), Held(x.nodes[p], r);
    && before <= after
    && forall i :: |before| <= i < |after| ==> after[i].from < g.n && s.nodes[after[i].from].rnd < r
  }

  ghost predicate ProposersSince(g: Group, s: System, x: System)
    requires |s.nodes| == g.n == |x.nodes|
  {
    && (forall p: nat, r: nat :: p < g.n ==> HeldSince(g, s, x, p, r))
    && (forall p: nat, r: nat, v :: NewStart(s, x, p, r, v) ==>
          p < g.n && |Held(s.nodes[p], r)| < g.threshold)
  }

  function Counts(x: Node, r: nat): seq<nat> {
    if r in x.tallies then x.tallies[r].from else []
  }

  /** What a learner has counted since, and whether that made it learn. */
  ghost predicate LearnerSince(g: Group, s: System, x: System, l: nat)
    requires l < |s.nodes| == |x.nodes|
  {
    !s.nodes[l].learned ==>
      && (forall r, i :: r in x.nodes[l].tallies && |Counts(s.nodes[l], r)| <= i < |x.nodes[l].tallies[r].from| ==>
            NewAccept(s, x, x.nodes[l].tallies[r].from[i], r, x.nodes[l].tallies[r].vval))
      && (x.nodes[l].learned ==>
            exists r :: r in x.nodes[l].tallies && |x.nodes[l].tallies[r].from| == g.threshold)
  }

  ghost predicate LearnersSince(g: Group, s: System, x: System)
    requires |s.nodes| == g.n == |x.nodes|
  {
    forall l: nat :: l < g.n ==> LearnerSince(g, s, x, l)
  }

  ghost predicate Since(g: Group, s: System, x: System) {
    NetSince(s, x) && AcceptorsSince(g, s, x) && ProposersSince(g, s, x) && LearnersSince(g, s, x)
  }

  // ----- Every step keeps this -----

  ghost predicate OutIsNew(s: System, out: set<Envelope>) {
    forall e :: e in out ==>
      && (e.msg.Promise? ==> e !in s.sent)
      && (e.msg.Accept? ==> !Started(s, e.src, e.msg.vrnd, e.msg.vval))
      && (e.msg.Learn? ==> !Accepted(s, e.src, e.msg.vrnd, e.msg.vval))
  }

  lemma NetStays(s: System, x: System, x': System, p: nat, out: set<Envelope>)
    requires NetSince(s, x) && Moves(x, x', p, out) && OutIsNew(s, out)
    ensures NetSince(s, x')
  {
  }

  /** What is new after a step was new before, or was just sent. */
  lemma NewlySent(s: System, x: System, x': System, p: nat, out: set<Envelope>)
    requires Moves(x, x', p, out)
    ensures forall a: nat, r: nat, v :: NewAccept(s, x', a, r, v) ==>
      NewAccept(s, x, a, r, v) || Envelope(a, a, Learn(r, v)) in out
    ensures forall b: nat, r: nat, v :: NewStart(s, x', b, r, v) ==>
      NewStart(s, x, b, r, v) || Envelope(b, b, Accept(r, v)) in out
    ensures forall a: nat, b: nat, r: nat, vr: nat, v :: NewPromise(s, x', a, b, r, vr, v) ==>
      NewPromise(s, x, a, b, r, vr, v) || Envelope(a, b, Promise(r, vr, v)) in out
  {
    Sent(x, x', p, out);
  }

  lemma AcceptorsStay(g: Group, s: System, x: System, x': System, p: nat, out: set<Envelope>)
    requires AcceptorsSince(g, s, x) && Moves(x, x', p, out)
    requires forall f :: f in out ==> !f.msg.Promise? && !f.msg.Learn?
    requires forall a :: 0 <= a < g.n ==> x'.nodes[a].rnd == x.nodes[a].rnd
    ensures AcceptorsSince(g, s, x')
  {
    NewlySent(s, x, x', p, out);
    forall a: nat, r: nat, v | NewAccept(s, x', a, r, v)
      ensures a < g.n && s.nodes[a].rnd <= r && AskedSince(g, s, x', r, v)
    {
      AskedStays(g, s, x, x', a, r, v);
    }
  }

  lemma AskedStays(g: Group, s: System, x: System, x': System, a: nat, r: nat, v: Entry)
    requires AcceptorsSince(g, s, x) && x.sent <= x'.sent && NewAccept(s, x, a, r, v)
    ensures a < g.n && s.nodes[a].rnd <= r && AskedSince(g, s, x', r, v)
  {
    var p :| 0 <= p < g.n && NewStart(s, x, p, r, v);
    assert NewStart(s, x', p, r, v);
  }

  lemma ProposersStay(g: Group, s: System, x: System, x': System, p: nat, out: set<Envelope>)
    requires |s.nodes| == g.n == |x.nodes| && ProposersSince(g, s, x) && Moves(x, x', p, out)
    requires forall f :: f in out ==> !f.msg.Accept?
    requires forall b: nat, r: nat :: b < g.n ==> Held(x'.nodes[b], r) == Held(x.nodes[b], r)
    ensures ProposersSince(g, s, x')
  {
    NewlySent(s, x, x', p, out);
    forall b: nat, r: nat | b < g.n
      ensures HeldSince(g, s, x', b, r)
    {
      assert HeldSince(g, s, x, b, r);
    }
  }

  lemma LearnerStays(g: Group, s: System, x: System, x': System, l: nat)
    requires |s.nodes| == |x.nodes| == |x'.nodes| && l < |s.nodes| && x.sent <= x'.sent
    requires LearnerSince(g, s, x, l) && SameLearner(x.nodes[l], x'.nodes[l])
    ensures LearnerSince(g, s, x', l)
  {
    if !s.nodes[l].learned {
      forall r, i |
        r in x'.nodes[l].tallies && |Counts(s.nodes[l], r)| <= i < |x'.nodes[l].tallies[r].from|
        ensures NewAccept(s, x', x'.nodes[l].tallies[r].from[i], r, x'.nodes[l].tallies[r].vval)
      {
        assert NewAccept(s, x, x.nodes[l].tallies[r].from[i], r, x.nodes[l].tallies[r].vval);
      }
    }
  }

  lemma LearnersStay(g: Group, s: System, x: System, x': System)
    requires |s.nodes| == |x.nodes| == |x'.nodes| == g.n && x.sent <= x'.sent && LearnersSince(g, s, x)
    requires forall l :: 0 <= l < g.n ==> SameLearner(x.nodes[l], x'.nodes[l])
    ensures LearnersSince(g, s, x')
  {
    forall l: nat | l < g.n
      ensures LearnerSince(g, s, x', l)
    {
      assert LearnerSince(g, s, x, l);
      LearnerStays(g, s, x, x', l);
    }
  }

  // Nothing but proposing, or losing a message.

  lemma QuietKeepsSince(g: Group, s: System, x: System, x': System, p: nat, out: set<Envelope>)
    requires Since(g, s, x) && Moves(x, x', p, out)
    requires forall f :: f in out ==> f.msg.Prepare?
    requires forall b :: 0 <= b < g.n ==>
      SameAcceptor(x.nodes[b], x'.nodes[b]) && SameLearner(x.nodes[b], x'.nodes[b])
    requires forall b: nat, r: nat :: b < g.n ==> Held(x'.nodes[b], r) == Held(x.nodes[b], r)
    ensures Since(g, s, x')
  {
    NetStays(s, x, x', p, out);
    AcceptorsStay(g, s, x, x', p, out);
    ProposersStay(g, s, x, x', p, out);
    LearnersStay(g, s, x, x');
  }

  // Receiving a Prepare message.

  lemma PreparePromisesSince(g: Group, s: System, x: System, x': System, e: Envelope, eff: Effect)
    requires AcceptorsSince(g, s, x) && Delivers(g, x, x', e, eff) && e.msg.Prepare?
    requires InvAcceptorState(x, e.dst)
    ensures AcceptorsSince(g, s, x') && OutIsNew(s, Envelopes(g, e.dst, eff.send))
  {
    var out := Envelopes(g, e.dst, eff.send);
    PrepareIsWellSent(g, x, x', e, eff);
    NewlySent(s, x, x', e.dst, out);
    forall a: nat, r: nat, v | NewAccept(s, x', a, r, v)
      ensures a < g.n && s.nodes[a].rnd <= r && AskedSince(g, s, x', r, v)
    {
      AskedStays(g, s, x, x', a, r, v);
    }
  }

  lemma PrepareKeepsSince(g: Group, s: System, x: System, x': System, e: Envelope, eff: Effect)
    requires Since(g, s, x) && Delivers(g, x, x', e, eff) && e.msg.Prepare?
    requires InvAcceptorState(x, e.dst)
    ensures Since(g, s, x')
  {
    var out := Envelopes(g, e.dst, eff.send);
    PreparePromisesSince(g, s, x, x', e, eff);
    NetStays(s, x, x', e.dst, out);
    ProposersStay(g, s, x, x', e.dst, out);
    LearnersStay(g, s, x, x');
  }

  // Receiving a Promise message.

  lemma PromiseIsHeldSince(g: Group, s: System, x: System, x': System, e: Envelope, eff: Effect, p: nat, r: nat)
    requires NetSince(s, x) && AcceptorsSince(g, s, x) && ProposersSince(g, s, x)
    requires Delivers(g, x, x', e, eff) && e.msg.Promise? && p < g.n
    ensures HeldSince(g, s, x', p, r)
  {
    assert HeldSince(g, s, x, p, r);
    if p == e.dst && r == e.msg.rnd {
      assert NewPromise(s, x, e.src, p, r, e.msg.vrnd, e.msg.vval);
    }
  }

  // The Accept messages that the promise leads to, if any, are new, and p was short of promises for them.
  ghost predicate StartsSince(g: Group, s: System, e: Envelope, eff: Effect)
    requires e.dst < |s.nodes| && e.msg.Promise?
  {
    && OutIsNew(s, Envelopes(g, e.dst, eff.send))
    && forall f :: f in Envelopes(g, e.dst, eff.send) ==>
         && f.src == e.dst && f.msg.Accept? && f.msg.vrnd == e.msg.rnd
         && |Held(s.nodes[e.dst], e.msg.rnd)| < g.threshold
  }

  lemma PromiseStartsSince(g: Group, s: System, x: System, x': System, e: Envelope, eff: Effect)
    requires Inv(g, x) && Since(g, s, x) && Delivers(g, x, x', e, eff) && e.msg.Promise?
    ensures StartsSince(g, s, e, eff)
  {
    if eff.send.ToAll? {
      AcceptFillsUp(g, x, x', e, eff);
      assert HeldSince(g, s, x, e.dst, e.msg.rnd);
      AcceptIsFirst(g, x, x', e, eff, e.dst, eff.send.msg.vval);
    }
  }

  lemma PromiseKeepsProposersSince(g: Group, s: System, x: System, x': System, e: Envelope, eff: Effect)
    requires NetSince(s, x) && AcceptorsSince(g, s, x) && ProposersSince(g, s, x)
    requires Delivers(g, x, x', e, eff) && e.msg.Promise? && StartsSince(g, s, e, eff)
    ensures ProposersSince(g, s, x')
  {
    NewlySent(s, x, x', e.dst, Envelopes(g, e.dst, eff.send));
    forall p: nat, r: nat | p < g.n
      ensures HeldSince(g, s, x', p, r)
    {
      PromiseIsHeldSince(g, s, x, x', e, eff, p, r);
    }
  }

  lemma PromiseKeepsSince(g: Group, s: System, x: System, x': System, e: Envelope, eff: Effect)
    requires Since(g, s, x) && Delivers(g, x, x', e, eff) && e.msg.Promise? && StartsSince(g, s, e, eff)
    ensures Since(g, s, x')
  {
    var out := Envelopes(g, e.dst, eff.send);
    NetStays(s, x, x', e.dst, out);
    AcceptorsStay(g, s, x, x', e.dst, out);
    PromiseKeepsProposersSince(g, s, x, x', e, eff);
    LearnersStay(g, s, x, x');
  }

  // Receiving an Accept message.

  lemma AcceptsSince(g: Group, s: System, x: System, x': System, e: Envelope, eff: Effect)
    requires NetSince(s, x) && AcceptorsSince(g, s, x) && InvShape(g, x) && InvAccepts(g, x)
    requires Delivers(g, x, x', e, eff) && e.msg.Accept?
    ensures AcceptorsSince(g, s, x') && OutIsNew(s, Envelopes(g, e.dst, eff.send))
  {
    var out := Envelopes(g, e.dst, eff.send);
    AcceptIsWellSent(g, x, x', e, eff);
    NewlySent(s, x, x', e.dst, out);
    assert NewStart(s, x', e.src, e.msg.vrnd, e.msg.vval);
    forall a: nat, r: nat, v | NewAccept(s, x', a, r, v)
      ensures a < g.n && s.nodes[a].rnd <= r && AskedSince(g, s, x', r, v)
    {
      if NewAccept(s, x, a, r, v) {
        AskedStays(g, s, x, x', a, r, v);
      }
    }
  }

  lemma AcceptKeepsSince(g: Group, s: System, x: System, x': System, e: Envelope, eff: Effect)
    requires Since(g, s, x) && Delivers(g, x, x', e, eff) && e.msg.Accept?
    requires InvShape(g, x) && InvAccepts(g, x)
    ensures Since(g, s, x')
  {
    var out := Envelopes(g, e.dst, eff.send);
    AcceptsSince(g, s, x, x', e, eff);
    NetStays(s, x, x', e.dst, out);
    ProposersStay(g, s, x, x', e.dst, out);
    LearnersStay(g, s, x, x');
  }

  // Receiving a Learn message.

  lemma TallyHasItsValue(g: Group, x: System, e: Envelope)
    requires Inv(g, x) && e in x.net && e.msg.Learn?
    requires e.dst < g.n && e.msg.vrnd in x.nodes[e.dst].tallies
    ensures x.nodes[e.dst].tallies[e.msg.vrnd].vval == e.msg.vval
  {
    assert InvTallies(x, e.dst);
    var tally := x.nodes[e.dst].tallies[e.msg.vrnd];
    assert Counted(x, e.dst, e.msg.vrnd, tally);
    var a :| 0 <= a < |x.nodes| && Accepted(x, a, e.msg.vrnd, tally.vval);
    OneAcceptedValue(g, x, a, e.src, e.msg.vrnd, tally.vval, e.msg.vval);
  }

  lemma CountsSince(g: Group, s: System, x: System, x': System, e: Envelope, eff: Effect)
    requires |s.nodes| == g.n && Delivers(g, x, x', e, eff) && e.msg.Learn?
    requires LearnerSince(g, s, x, e.dst) && NewAccept(s, x, e.src, e.msg.vrnd, e.msg.vval) && x.sent <= x'.sent
    requires e.msg.vrnd in x.nodes[e.dst].tallies ==> x.nodes[e.dst].tallies[e.msg.vrnd].vval == e.msg.vval
    ensures LearnerSince(g, s, x', e.dst)
  {
    var l, k := e.dst, e.msg.vrnd;
    if !s.nodes[l].learned {
      forall r, i |
        r in x'.nodes[l].tallies && |Counts(s.nodes[l], r)| <= i < |x'.nodes[l].tallies[r].from|
        ensures NewAccept(s, x', x'.nodes[l].tallies[r].from[i], r, x'.nodes[l].tallies[r].vval)
      {
        if r in x.nodes[l].tallies && i < |x.nodes[l].tallies[r].from| {
          assert NewAccept(s, x, x.nodes[l].tallies[r].from[i], r, x.nodes[l].tallies[r].vval);
        }
      }
      if x.nodes[l].learned {
        var r :| r in x.nodes[l].tallies && |x.nodes[l].tallies[r].from| == g.threshold;
        assert r in x'.nodes[l].tallies && |x'.nodes[l].tallies[r].from| == g.threshold;
      } else if x'.nodes[l].learned {
        assert k in x'.nodes[l].tallies && |x'.nodes[l].tallies[k].from| == g.threshold;
      }
    }
  }

  lemma LearnKeepsLearnersSince(g: Group, s: System, x: System, x': System, e: Envelope, eff: Effect)
    requires Inv(g, x) && Since(g, s, x) && Delivers(g, x, x', e, eff) && e.msg.Learn?
    ensures LearnersSince(g, s, x')
  {
    if e.msg.vrnd in x.nodes[e.dst].tallies {
      TallyHasItsValue(g, x, e);
    }
    assert NewAccept(s, x, e.src, e.msg.vrnd, e.msg.vval);
    forall l: nat | l < g.n
      ensures LearnerSince(g, s, x', l)
    {
      assert LearnerSince(g, s, x, l);
      if l == e.dst {
        CountsSince(g, s, x, x', e, eff);
      } else {
        LearnerStays(g, s, x, x', l);
      }
    }
  }

  lemma LearnKeepsSince(g: Group, s: System, x: System, x': System, e: Envelope, eff: Effect)
    requires Since(g, s, x) && Delivers(g, x, x', e, eff) && e.msg.Learn? && LearnersSince(g, s, x')
    ensures Since(g, s, x')
  {
    NetStays(s, x, x', e.dst, {});
    AcceptorsStay(g, s, x, x', e.dst, {});
    ProposersStay(g, s, x, x', e.dst, {});
  }

  lemma DeliverKeepsSince(g: Group, s: System, x: System, x': System, e: Envelope)
    requires Inv(g, x) && Since(g, s, x) && e in x.net && x' == AfterDeliver(g, x, e)
    ensures Since(g, s, x')
  {
    var eff := Received(g, x, e);
    DeliverMoves(g, x, e);
    match e.msg
    case Prepare(_) =>
      PrepareKeepsSince(g, s, x, x', e, eff);
    case Promise(_, _, _) =>
      PromiseStartsSince(g, s, x, x', e, eff);
      PromiseKeepsSince(g, s, x, x', e, eff);
    case Accept(_, _) =>
      AcceptKeepsSince(g, s, x, x', e, eff);
    case Learn(_, _) =>
      LearnKeepsLearnersSince(g, s, x, x', e, eff);
      LearnKeepsSince(g, s, x, x', e, eff);
  }

  lemma ProposeKeepsSince(g: Group, s: System, x: System, x': System, p: nat, number: nat, v: Entry)
    requires Since(g, s, x) && Proposes(g, x, x', p, number, v)
    ensures Since(g, s, x')
  {
    QuietKeepsSince(g, s, x, x', p, Fanout(g.n, p, Prepare(number)));
  }

  lemma LoseKeepsSince(g: Group, s: System, x: System, e: Envelope)
    requires Since(g, s, x) && e in x.net
    ensures Since(g, s, x.(net := x.net - multiset{e}))
  {
    LoseMoves(x, e);
    QuietKeepsSince(g, s, x, x.(net := x.net - multiset{e}), 0, {});
  }

  lemma NextKeepsSince(g: Group, s: System, x: System, x': System)
    requires Inv(g, x) && Since(g, s, x) && Next(g, x, x')
    ensures Since(g, s, x')
  {
    var step :| StepOf(g, x, x', step);
    match step
    case Propose(p, number, v) =>
      ProposeMoves(g, x, p, number, v);
      ProposeKeepsSince(g, s, x, x', p, number, v);
    case Lose(e) => LoseKeepsSince(g, s, x, e);
    case Deliver(e) => DeliverKeepsSince(g, s, x, x', e);
  }

  lemma SinceItself(g: Group, s: System)
    requires |s.nodes| == g.n && s.net == multiset{}
    ensures Since(g, s, s)
  {
  }

  lemma LeadsSince(g: Group, s: System, x: System)
    requires Inv(g, s) && s.net == multiset{} && Leads(Steps(g), s, x)
    ensures Inv(g, x) && Since(g, s, x)
  {
    SinceItself(g, s);
    forall x, x' | Inv(g, x) && Since(g, s, x) && Next(g, x, x')
      ensures Inv(g, x') && Since(g, s, x')
    {
      NextKeeps(g, x, x');
      NextKeepsSince(g, s, x, x');
    }
    LeadsKeeps(Steps(g), (x: System) => Inv(g, x) && Since(g, s, x), s, x);
  }

  // ----- What it takes to learn -----

  lemma FromsInRoom(s: System, froms: seq<nat>, r: nat)
    requires forall i, j :: 0 <= i < j < |froms| ==> froms[i] != froms[j]
    requires forall i :: 0 <= i < |froms| ==> froms[i] < |s.nodes| && s.nodes[froms[i]].rnd < r
    ensures |froms| <= |Room(s, r)|
  {
    var q := DistinctSize(froms);
    SubsetSize(q, Room(s, r));
  }

  /** The promises that completed a round since came from acceptors that had room for it. */
  lemma NewPromisesHadRoom(g: Group, s: System, x: System, p: nat, r: nat, v: Entry)
    requires Inv(g, x) && Since(g, s, x) && NewStart(s, x, p, r, v)
    ensures p < g.n && |Held(s.nodes[p], r)| < g.threshold <= |Held(s.nodes[p], r)| + |Room(s, r)|
  {
    StartedIsFull(g, x, p, r, v);
    assert InvProposerState(g, x, p) && HeldSince(g, s, x, p, r);
    var ps, k := x.nodes[p].promises[r], |Held(s.nodes[p], r)|;
    assert Backed(x, p, r, ps);
    var froms := seq(|ps| - k, i requires 0 <= i < |ps| - k => ps[k + i].from);
    FromsInRoom(s, froms, r);
  }

  /** Whoever accepted in a round that was begun since accepted since. */
  lemma AcceptedWithItsRound(g: Group, s: System, x: System, p: nat, b: nat, r: nat, v: Entry)
    requires Inv(g, s) && Inv(g, x) && s.sent <= x.sent
    requires NewStart(s, x, p, r, v) && Accepted(x, b, r, v)
    ensures NewAccept(s, x, b, r, v)
  {
    if Accepted(s, b, r, v) {
      var p' := WhoAsked(g, s, b, r, v);
      assert Started(x, p', r, v);
      OneValuePerRound(g, x, p, p', r, v, v);
    }
  }

  lemma CountedHadRoom(g: Group, s: System, x: System, l: nat, p: nat, r: nat, v: Entry)
    requires Inv(g, s) && Inv(g, x) && Since(g, s, x) && NewStart(s, x, p, r, v)
    requires l < g.n && r in x.nodes[l].tallies && x.nodes[l].tallies[r].vval == v
    ensures |x.nodes[l].tallies[r].from| <= |Room(s, r + 1)|
  {
    var tally := x.nodes[l].tallies[r];
    assert InvTallies(x, l) && Counted(x, l, r, tally);
    forall i | 0 <= i < |tally.from|
      ensures tally.from[i] < |s.nodes| && s.nodes[tally.from[i]].rnd < r + 1
    {
      AcceptedWithItsRound(g, s, x, p, tally.from[i], r, v);
    }
    FromsInRoom(s, tally.from, r + 1);
  }

  lemma MoreRoom(s: System, r: nat, r': nat)
    requires r <= r'
    ensures |Room(s, r)| <= |Room(s, r')|
  {
    SubsetSize(Room(s, r), Room(s, r'));
  }

  /** Node l has learned since, in some round that was begun since. */
  lemma LearnedInNewRound(g: Group, s: System, x: System, l: nat) returns (p: nat, r: nat, v: Entry)
    requires g.threshold > 0 && Listening(g, s) && Since(g, s, x)
    requires l < g.n && !s.nodes[l].learned && x.nodes[l].learned
    ensures NewStart(s, x, p, r, v) && p < g.n
    ensures r in x.nodes[l].tallies && x.nodes[l].tallies[r].vval == v
    ensures |x.nodes[l].tallies[r].from| == g.threshold
  {
    assert LearnerSince(g, s, x, l);
    r :| r in x.nodes[l].tallies && |x.nodes[l].tallies[r].from| == g.threshold;
    v := x.nodes[l].tallies[r].vval;
    var i := |Counts(s.nodes[l], r)|;
    assert i < g.threshold;
    assert NewAccept(s, x, x.nodes[l].tallies[r].from[i], r, v);
    p :| 0 <= p < g.n && NewStart(s, x, p, r, v);
  }

  /** Room for a round that was begun since is room for the last number. */
  lemma RoomForLast(g: Group, s: System, p: nat, r: nat)
    requires Inv(g, s) && p < g.n && r <= LAST_NUMBER
    requires |Held(s.nodes[p], r)| < g.threshold <= |Held(s.nodes[p], r)| + |Room(s, r)|
    requires g.threshold <= |Room(s, r + 1)|
    ensures CanFinish(g, s, p)
  {
    if r < LAST_NUMBER {
      MoreRoom(s, r + 1, LAST_NUMBER);
      HeldAndRoom(g, s, p, LAST_NUMBER);
    }
  }

  lemma StartedIsSmall(g: Group, x: System, p: nat, r: nat, v: Entry)
    requires g.numbers.DrawnNumber? && Reachable(g, x) && Started(x, p, r, v)
    ensures r <= LAST_NUMBER
  {
    ReachableIsSmall(g, x);
    assert NumberOf(Envelope(p, p, Accept(r, v)).msg) <= LAST_NUMBER;
  }

  lemma LearningNeedsRoom(g: Group, s: System, x: System, l: nat)
    requires g.threshold > 0 && g.numbers.DrawnNumber?
    requires Reachable(g, s) && Reachable(g, x) && Inv(g, s) && Inv(g, x) && Since(g, s, x)
    requires l < g.n && !s.nodes[l].learned && x.nodes[l].learned
    ensures Open(g, s)
  {
    ReachableListens(g, s);
    var p, r, v := LearnedInNewRound(g, s, x, l);
    StartedIsSmall(g, x, p, r, v);
    NewPromisesHadRoom(g, s, x, p, r, v);
    CountedHadRoom(g, s, x, l, p, r, v);
    RoomForLast(g, s, p, r);
  }

  ghost predicate CanLearn(g: Group, s: System, l: nat) {
    exists s', w :: Leads(Steps(g), s, s') && Output(l, w) in s'.outputs
  }

  /** As long as there is room, a node can learn, whatever is in flight or was lost. */
  lemma RoomLeftLearns(g: Group, s: System, l: nat)
    requires g.threshold > 0 && 2 * g.threshold > g.n && g.numbers.DrawnNumber?
    requires Reachable(g, s) && Open(g, s)
    requires l < |s.nodes| && !s.nodes[l].learned
    ensures CanLearn(g, s, l)
  {
    ReachableIsSmall(g, s);
    var p: nat :| p < g.n && CanFinish(g, s, p);
    var m, s', w := LastRound(g, s, p, l, Unset);
    SoloLeads(g, p, Unset, s, m);
    WriteIsNext(g, m, s', l, w);
    LeadsOn(Steps(g), s, m, s');
  }

  /**
   When all messages are lost, a node can still learn a value if and only if some proposer is short of
   a quorum of promises for the last 32-bit number and there are enough acceptors left to complete it.
  */
  lemma LearnsIffRoomLeft(g: Group, s: System, l: nat)
    requires g.threshold > 0 && 2 * g.threshold > g.n && g.numbers.DrawnNumber?
    requires Reachable(g, s) && s.net == multiset{}
    requires l < g.n && (l < |s.nodes| ==> !s.nodes[l].learned)
    ensures CanLearn(g, s, l) <==> Open(g, s)
  {
    ReachableHolds(g, s);
    if Open(g, s) {
      RoomLeftLearns(g, s, l);
    }
    if CanLearn(g, s, l) {
      var x, w :| Leads(Steps(g), s, x) && Output(l, w) in x.outputs;
      LeadsSince(g, s, x);
      ReachableOn(g, s, x);
      ReachableListens(g, x);
      LearningNeedsRoom(g, s, x, l);
    }
  }

  // ----- A stuck run -----

  /** Every acceptor has promised the last number, and nobody can hear of it. */
  ghost predicate Stuck(g: Group, s: System) {
    && |s.nodes| == g.n && s.outputs == {}
    && (forall a :: 0 <= a < g.n ==> s.nodes[a].rnd == LAST_NUMBER)
    && OnlyPrepares(s.net)
  }

  ghost predicate OnlyPrepares(net: multiset<Envelope>) {
    forall e :: e in net ==> e.msg.Prepare? && e.msg.rnd <= LAST_NUMBER
  }

  /** An acceptor that has promised the last number ignores every Prepare message. */
  lemma PrepareIsIgnored(g: Group, s: System, e: Envelope)
    requires e in s.net && e.dst < |s.nodes| && e.msg.Prepare? && e.msg.rnd <= s.nodes[e.dst].rnd
    ensures AfterDeliver(g, s, e).nodes == s.nodes && AfterDeliver(g, s, e).outputs == s.outputs
    ensures forall f :: f in AfterDeliver(g, s, e).net ==> f in s.net
  {
    assert Received(g, s, e) == Effect(s.nodes[e.dst], Silent, None, false);
  }

  lemma StuckProposes(g: Group, s: System, p: nat, number: nat, v: Entry)
    requires Stuck(g, s) && p < |s.nodes| && number <= LAST_NUMBER
    ensures Stuck(g, AfterPropose(g, s, p, number, v))
  {
    ProposingSendsPrepares(g, s, p, number, v);
  }

  lemma StuckDelivers(g: Group, s: System, e: Envelope)
    requires Stuck(g, s) && e in s.net && e.dst < |s.nodes|
    ensures Stuck(g, AfterDeliver(g, s, e))
  {
    PrepareIsIgnored(g, s, e);
  }

  lemma StuckLoses(g: Group, s: System, e: Envelope)
    requires Stuck(g, s) && e in s.net
    ensures Stuck(g, s.(net := s.net - multiset{e}))
  {
    assert forall f :: f in s.net - multiset{e} ==> f in s.net;
  }

  lemma StuckStays(g: Group, s: System, s': System)
    requires g.numbers.DrawnNumber? && Stuck(g, s) && Next(g, s, s')
    ensures Stuck(g, s')
  {
    var step :| StepOf(g, s, s', step);
    match step
    case Propose(p, number, v) => StuckProposes(g, s, p, number, v);
    case Deliver(e) => StuckDelivers(g, s, e);
    case Lose(e) => StuckLoses(g, s, e);
  }

  /** Node 0 has proposed under the last number; the acceptors below k have promised it and nobody heard. */
  ghost predicate Promising(g: Group, s: System, k: nat) {
    && |s.nodes| == g.n && s.outputs == {}
    && (forall a :: 0 <= a < g.n ==> s.nodes[a].rnd == if a < k then LAST_NUMBER else 0)
    && OnlyPrepares(s.net)
    && (forall a :: k <= a < g.n ==> Envelope(0, a, Prepare(LAST_NUMBER)) in s.net)
  }

  /** Acceptor k promises the last number; `f` is the message that says so. */
  lemma PromiseIsSent(g: Group, s: System, k: nat) returns (m: System, f: Envelope)
    requires k < g.n && Promising(g, s, k)
    ensures Silently(g, s, m) && f.msg.Promise? && m.outputs == {}
    ensures f in m.net && m.net - multiset{f} == s.net - multiset{Envelope(0, k, Prepare(LAST_NUMBER))}
    ensures |m.nodes| == g.n && m.nodes[k].rnd == LAST_NUMBER
    ensures forall a :: 0 <= a < g.n && a != k ==> m.nodes[a] == s.nodes[a]
  {
    var e := Envelope(0, k, Prepare(LAST_NUMBER));
    m := AfterDeliver(g, s, e);
    f := Envelope(k, 0, Promise(LAST_NUMBER, s.nodes[k].vrnd, s.nodes[k].vval));
    assert Received(g, s, e).send == To(0, f.msg);
    assert Envelopes(g, k, To(0, f.msg)) == {f};
    assert multiset({f}) == multiset{f};
  }

  lemma OneMorePromises(g: Group, s: System, k: nat, s': System)
    requires k < g.n && Promising(g, s, k)
    requires s'.net == s.net - multiset{Envelope(0, k, Prepare(LAST_NUMBER))} && s'.outputs == {}
    requires |s'.nodes| == g.n && s'.nodes[k].rnd == LAST_NUMBER
    requires forall a :: 0 <= a < g.n && a != k ==> s'.nodes[a] == s.nodes[a]
    ensures Promising(g, s', k + 1)
  {
  }

  lemma PromiseIsLost(g: Group, s: System, k: nat, v: Entry) returns (s': System)
    requires k < g.n && Leads(SoloSteps(g, 0, v), Init(g), s) && Promising(g, s, k)
    ensures Leads(SoloSteps(g, 0, v), Init(g), s') && Promising(g, s', k + 1)
  {
    var m, f := PromiseIsSent(g, s, k);
    LeadsOn(SoloSteps(g, 0, v), Init(g), s, m);
    s' := m.(net := m.net - multiset{f});
    assert Drops(m, s');
    LeadsOn(SoloSteps(g, 0, v), Init(g), m, s');
    OneMorePromises(g, s, k, s');
  }

  lemma NobodyPromises(g: Group, v: Entry) returns (s: System)
    requires 0 < g.n
    ensures Leads(SoloSteps(g, 0, v), Init(g), s) && Promising(g, s, 0)
  {
    var o := Init(g);
    var c := Climb(g, o, 0, LAST_NUMBER, v);
    s := AfterPropose(g, c, 0, LAST_NUMBER, v);
    assert ProposesDrawn(g, c, s, 0, v);
    LeadsOn(SoloSteps(g, 0, v), o, c, s);
    ReachesAll(g, 0, Prepare(LAST_NUMBER));
    ProposingSendsPrepares(g, c, 0, LAST_NUMBER, v);
    assert forall a :: 0 <= a < g.n ==> SameAcceptor(o.nodes[a], c.nodes[a]);
  }

  /** A node draws its way to the last number, every acceptor promises it, and the promises are lost. */
  lemma {:induction false} AllPromisesAreLost(g: Group, k: nat, v: Entry) returns (s: System)
    requires 0 < g.n && k <= g.n
    ensures Leads(SoloSteps(g, 0, v), Init(g), s) && Promising(g, s, k)
  {
    if k == 0 {
      s := NobodyPromises(g, v);
    } else {
      var m := AllPromisesAreLost(g, k - 1, v);
      s := PromiseIsLost(g, m, k - 1, v);
    }
  }

  /**
   Every instance can get stuck, with the numbers that the program draws and whichever value is proposed:
   from then on nobody ever learns.
  */
  lemma InstanceCanGetStuck(g: Group, v: Entry) returns (s: System)
    requires 0 < g.n && g.numbers.DrawnNumber?
    ensures Leads(SoloSteps(g, 0, v), Init(g), s) && Reachable(g, s) && Stuck(g, s)
    ensures forall s' :: Leads(Steps(g), s, s') ==> s'.outputs == {}
  {
    s := AllPromisesAreLost(g, g.n, v);
    SoloLeads(g, 0, v, Init(g), s);
    forall x, x' | Stuck(g, x) && Next(g, x, x')
      ensures Stuck(g, x')
    {
      StuckStays(g, x, x');
    }
    forall s' | Leads(Steps(g), s, s')
      ensures s'.outputs == {}
    {
      LeadsKeeps(Steps(g), (x: System) => Stuck(g, x), s, s');
    }
  }
}
