/**
 When a Paxos instance can go on. A proposer can finish a round as long as enough acceptors have
 promised nothing above its number; with 32-bit numbers that can come to an end.
*/
module PaxosProgress {
  import opened Paths
  import opened Entries
  import opened PaxosNode
  import opened PaxosProtocol
  import opened PaxosInvariant
  import opened PaxosAgreement
  import opened PaxosRuns
  import opened FiniteSets

  // ----- More that holds of every reachable state -----

  lemma SentGrows(g: Group, s: System, s': System)
    requires Leads(Steps(g), s, s')
    ensures s.sent <= s'.sent
  {
    LeadsKeeps(Steps(g), (x: System) => s.sent <= x.sent, s, s');
  }

  lemma ReachableOn(g: Group, s: System, s': System)
    requires Reachable(g, s) && Leads(Steps(g), s, s')
    ensures Reachable(g, s') && s.sent <= s'.sent
  {
    LeadsThrough(Steps(g), Init(g), s, s');
    SentGrows(g, s, s');
  }

  /** A learner that has learned has written, and one that has not is short of a quorum in every round. */
  ghost predicate Listening(g: Group, s: System) {
    && |s.nodes| == g.n
    && (forall l, r :: 0 <= l < g.n && !s.nodes[l].learned && r in s.nodes[l].tallies ==>
          |s.nodes[l].tallies[r].from| < g.threshold)
    && (forall l :: 0 <= l < g.n && s.nodes[l].learned ==> exists w :: Output(l, w) in s.outputs)
    && (forall o :: o in s.outputs ==> o.node < g.n && s.nodes[o.node].learned)
  }

  lemma LearnKeepsListening(g: Group, s: System, s': System, e: Envelope)
    requires g.threshold > 0 && Listening(g, s) && StepOf(g, s, s', Deliver(e)) && e.msg.Learn?
    ensures Listening(g, s')
  {
    var eff := Received(g, s, e);
    assert eff.wrote.Some? ==> Output(e.dst, eff.wrote.value) in s'.outputs;
    forall l | 0 <= l < g.n && s'.nodes[l].learned
      ensures exists w :: Output(l, w) in s'.outputs
    {
      if s.nodes[l].learned {
        var w :| Output(l, w) in s.outputs;
        assert Output(l, w) in s'.outputs;
      }
    }
  }

  lemma OthersDoNotLearn(g: Group, s: System, s': System, step: Step)
    requires StepOf(g, s, s', step) && !(step.Deliver? && step.env.msg.Learn?)
    ensures s'.outputs == s.outputs && |s'.nodes| == |s.nodes|
    ensures forall l :: 0 <= l < |s.nodes| ==> SameLearner(s.nodes[l], s'.nodes[l])
  {
  }

  lemma NextKeepsListening(g: Group, s: System, s': System)
    requires g.threshold > 0 && Listening(g, s) && Next(g, s, s')
    ensures Listening(g, s')
  {
    var step :| StepOf(g, s, s', step);
    if step.Deliver? && step.env.msg.Learn? {
      LearnKeepsListening(g, s, s', step.env);
    } else {
      OthersDoNotLearn(g, s, s', step);
    }
  }

  lemma ReachableListens(g: Group, s: System)
    requires g.threshold > 0 && Reachable(g, s)
    ensures Listening(g, s)
  {
    forall s, s' | Listening(g, s) && Next(g, s, s')
      ensures Listening(g, s')
    {
      NextKeepsListening(g, s, s');
    }
    LeadsKeeps(Steps(g), (s: System) => Listening(g, s), Init(g), s);
  }

  /** In no run does a node write twice for one instance. */
  lemma NodeWritesOnce(g: Group, s: System, e: Envelope)
    requires g.threshold > 0 && Reachable(g, s) && e in s.net && e.dst < |s.nodes|
    requires Received(g, s, e).wrote.Some?
    ensures forall w :: Output(e.dst, w) !in s.outputs
  {
    ReachableListens(g, s);
    WritesIffLearns(g.rule, g.threshold, s.nodes[e.dst], e.src, e.msg);
  }

  /** All numbers are 32-bit numbers. */
  ghost predicate Small(s: System) {
    && (forall e :: e in s.sent || e in s.net ==> NumberOf(e.msg) <= LAST_NUMBER)
    && (forall a :: 0 <= a < |s.nodes| ==> s.nodes[a].rnd <= LAST_NUMBER)
  }

  /** A message is answered under its own number. */
  lemma AnswersHaveItsNumber(g: Group, s: System, e: Envelope)
    requires e.dst < |s.nodes|
    ensures forall f :: f in Envelopes(g, e.dst, Received(g, s, e).send) ==> NumberOf(f.msg) == NumberOf(e.msg)
    ensures
      Received(g, s, e).node.rnd == s.nodes[e.dst].rnd || Received(g, s, e).node.rnd == NumberOf(e.msg)
  {
  }

  ghost predicate AllSmall(envelopes: set<Envelope>) {
    forall e :: e in envelopes ==> NumberOf(e.msg) <= LAST_NUMBER
  }

  /** Node p is replaced and sends small messages. */
  lemma ApplyKeepsSmall(g: Group, s: System, s': System, p: nat, effect: Effect)
    requires p < |s.nodes| && Small(s) && s' == Apply(g, s, p, effect)
    requires effect.node.rnd <= LAST_NUMBER && AllSmall(Envelopes(g, p, effect.send))
    ensures Small(s')
  {
    var out := Envelopes(g, p, effect.send);
    forall e | e in s'.sent || e in s'.net
      ensures NumberOf(e.msg) <= LAST_NUMBER
    {
      assert e in s.sent || e in s.net || e in out;
    }
  }

  lemma ProposalKeepsSmall(g: Group, s: System, p: nat, number: nat, v: Entry)
    requires p < |s.nodes| && Small(s) && number <= LAST_NUMBER
    ensures Small(AfterPropose(g, s, p, number, v))
  {
    var effect := OnPropose(s.nodes[p], number, v);
    assert AllSmall(Envelopes(g, p, effect.send));
    ApplyKeepsSmall(g, s.(proposed := s.proposed + {v}), AfterPropose(g, s, p, number, v), p, effect);
  }

  lemma LessIsSmall(s: System, e: Envelope)
    requires Small(s) && e in s.net
    ensures Small(s.(net := s.net - multiset{e}))
  {
    assert forall f :: f in s.net - multiset{e} ==> f in s.net;
  }

  lemma DeliveryKeepsSmall(g: Group, s: System, e: Envelope)
    requires Small(s) && e in s.net && e.dst < |s.nodes|
    ensures Small(AfterDeliver(g, s, e))
  {
    AnswersHaveItsNumber(g, s, e);
    LessIsSmall(s, e);
    ApplyKeepsSmall(g, s.(net := s.net - multiset{e}), AfterDeliver(g, s, e), e.dst, Received(g, s, e));
  }

  lemma NextKeepsSmall(g: Group, s: System, s': System)
    requires g.numbers.DrawnNumber? && Small(s) && Next(g, s, s')
    ensures Small(s')
  {
    var step :| StepOf(g, s, s', step);
    match step
    case Propose(p, number, v) => ProposalKeepsSmall(g, s, p, number, v);
    case Deliver(e) => DeliveryKeepsSmall(g, s, e);
    case Lose(e) => LessIsSmall(s, e);
  }

  lemma ReachableIsSmall(g: Group, s: System)
    requires g.numbers.DrawnNumber? && Reachable(g, s)
    ensures Small(s)
  {
    forall s, s' | Small(s) && Next(g, s, s')
      ensures Small(s')
    {
      NextKeepsSmall(g, s, s');
    }
    LeadsKeeps(Steps(g), (s: System) => Small(s), Init(g), s);
  }

  /** Nothing happens in an instance before something is proposed for it. */
  lemma UnproposedIsInit(g: Group, s: System)
    requires Reachable(g, s)
    ensures s.proposed == {} ==> s == Init(g)
  {
    var inv := (s: System) => s.proposed == {} ==> s == Init(g);
    forall s, s' | inv(s) && Next(g, s, s')
      ensures inv(s')
    {
      var step :| StepOf(g, s, s', step);
      if step.Propose? {
        assert step.value in s'.proposed;
      }
    }
    LeadsKeeps(Steps(g), inv, Init(g), s);
  }

  // ----- Drawing a number -----

  /** How far it is from one 32-bit number to another, counting up and around. */
  function Distance(from: nat, to: nat): nat {
    (to - from) % NUMBERS
  }

  lemma DistanceIsDrawn(latest: nat, r: nat)
    requires r < NUMBERS
    ensures Distance(latest, r) < 1000 ==> Drawn(latest, r)
    ensures Distance(latest, r) >= 1000 ==>
      Distance(NextProposalNumber(latest, 999), r) == Distance(latest, r) - 999
  {
    var turns := (r - latest) / NUMBERS;
    assert latest + Distance(latest, r) == r - turns * NUMBERS;
    assert NextProposalNumber(latest, Distance(latest, r)) == r;
  }

  // Node p may have proposed again, under other numbers than r; nothing else has happened.
  ghost predicate OnlyProposed(s: System, s': System, p: nat, r: nat, v: Entry) {
    && |s'.nodes| == |s.nodes| && s'.outputs == s.outputs
    && (forall e :: e in s'.net ==> e in s.net || (e.msg.Prepare? && e.msg.rnd <= LAST_NUMBER))
    && (forall b :: 0 <= b < |s.nodes| && b != p ==> s'.nodes[b] == s.nodes[b])
    && (forall b :: 0 <= b < |s.nodes| ==>
          SameLearner(s.nodes[b], s'.nodes[b]) && SameAcceptor(s.nodes[b], s'.nodes[b]))
    && (p < |s.nodes| ==>
          && Held(s'.nodes[p], r) == Held(s.nodes[p], r)
          && OwnValue(s'.nodes[p], r, v) == OwnValue(s.nodes[p], r, v))
  }

  lemma ProposingSendsPrepares(g: Group, s: System, p: nat, number: nat, v: Entry)
    requires p < |s.nodes| && number <= LAST_NUMBER
    ensures forall e :: e in AfterPropose(g, s, p, number, v).net ==>
      e in s.net || (e.msg.Prepare? && e.msg.rnd <= LAST_NUMBER)
  {
    forall e | e in AfterPropose(g, s, p, number, v).net
      ensures e in s.net || (e.msg.Prepare? && e.msg.rnd <= LAST_NUMBER)
    {
      assert e in s.net || e in Fanout(g.n, p, Prepare(number));
    }
  }

  lemma ProposingOnlyProposes(g: Group, s: System, p: nat, number: nat, r: nat, v: Entry)
    requires p < |s.nodes| && number <= LAST_NUMBER && number != r
    ensures OnlyProposed(s, AfterPropose(g, s, p, number, v), p, r, v)
    ensures AfterPropose(g, s, p, number, v).nodes[p].latest == number
  {
    ProposingSendsPrepares(g, s, p, number, v);
  }

  lemma ProposedOnce(g: Group, s: System, p: nat, number: nat, r: nat, v: Entry) returns (s': System)
    requires p < |s.nodes| && Drawn(s.nodes[p].latest, number) && number != r
    ensures Leads(SoloSteps(g, p, v), s, s') && OnlyProposed(s, s', p, r, v) && s'.nodes[p].latest == number
  {
    s' := AfterPropose(g, s, p, number, v);
    assert ProposesDrawn(g, s, s', p, v);
    LeadsToItself(SoloSteps(g, p, v), s);
    LeadsOn(SoloSteps(g, p, v), s, s, s');
    ProposingOnlyProposes(g, s, p, number, r, v);
  }

  lemma OnlyProposedThrough(s: System, m: System, s': System, p: nat, r: nat, v: Entry)
    requires OnlyProposed(s, m, p, r, v) && OnlyProposed(m, s', p, r, v)
    ensures OnlyProposed(s, s', p, r, v)
  {
    forall b | 0 <= b < |s.nodes|
      ensures SameLearner(s.nodes[b], s'.nodes[b]) && SameAcceptor(s.nodes[b], s'.nodes[b])
    {
      assert SameLearner(s.nodes[b], m.nodes[b]) && SameAcceptor(s.nodes[b], m.nodes[b]);
    }
  }

  /** By proposing again and again a node comes to draw any 32-bit number, without using it on the way. */
  lemma {:induction false} Climb(g: Group, s: System, p: nat, r: nat, v: Entry) returns (s': System)
    requires p < |s.nodes| && r < NUMBERS
    ensures Leads(SoloSteps(g, p, v), s, s') && OnlyProposed(s, s', p, r, v)
    ensures Drawn(s'.nodes[p].latest, r)
    decreases Distance(s.nodes[p].latest, r)
  {
    var latest := s.nodes[p].latest;
    DistanceIsDrawn(latest, r);
    if Distance(latest, r) < 1000 {
      s' := s;
      LeadsToItself(SoloSteps(g, p, v), s);
    } else {
      var number := NextProposalNumber(latest, 999);
      assert Drawn(latest, number);
      var m := ProposedOnce(g, s, p, number, r, v);
      s' := Climb(g, m, p, r, v);
      OnlyProposedThrough(s, m, s', p, r, v);
      LeadsThrough(SoloSteps(g, p, v), s, m, s');
    }
  }

  // ----- Finishing a round -----

  /** Round r of p can be finished: `order` completes its promises, `accepting` is a quorum that accepts. */
  ghost predicate Finishes(g: Group, s: System, p: nat, r: nat, order: seq<nat>, accepting: seq<nat>) {
    && |s.nodes| == g.n && p < g.n && r < NUMBERS
    && Quorum(g, order) && order != [] && |Held(s.nodes[p], r)| + |order| == g.threshold
    && (forall a :: a in order && a < g.n ==> s.nodes[a].rnd < r)
    && CanAccept(g, s, r, order, accepting) && |accepting| == g.threshold
  }

  /** The value is one that was proposed, or the proposer's, and under a sound rule the one chosen before. */
  ghost predicate Due(g: Group, s: System, v: Entry, w: Entry) {
    && (w == v || w in s.proposed)
    && (Sound(g) ==> forall u :: Chosen(g, s, u) ==> u == w)
  }

  lemma SoloProposes(g: Group, s: System, s': System, p: nat, v: Entry)
    requires Leads(SoloSteps(g, p, v), s, s')
    ensures s.proposed <= s'.proposed <= s.proposed + {v}
  {
    LeadsKeeps(SoloSteps(g, p, v), (x: System) => s.proposed <= x.proposed <= s.proposed + {v}, s, s');
  }

  lemma WrittenIsDue(g: Group, s: System, m: System, s': System, p: nat, l: nat, v: Entry, w: Entry)
    requires g.threshold > 0 && 2 * g.threshold > g.n && Reachable(g, s)
    requires Leads(SoloSteps(g, p, v), s, m) && Writes(g, m, s', l, w)
    ensures Reachable(g, m) && Reachable(g, s') && Output(l, w) in s'.outputs && Due(g, s, v, w)
  {
    SoloLeads(g, p, v, s, m);
    SoloProposes(g, s, m, p, v);
    ReachableOn(g, s, m);
    WriteIsNext(g, m, s', l, w);
    LeadsOn(Steps(g), Init(g), m, s');
    Validity(g, s');
    assert s'.proposed == m.proposed && s.sent <= s'.sent;
    if Sound(g) {
      ReachableHolds(g, s');
      forall u | Chosen(g, s, u)
        ensures u == w
      {
        ChosenIsWritten(g, s, s', u, Output(l, w));
      }
    }
  }

  /** A value that was chosen is still the only one. */
  lemma ChosenIsWritten(g: Group, s: System, s': System, u: Entry, o: Output)
    requires g.threshold > 0 && Sound(g) && Chosen(g, s, u) && s.sent <= s'.sent
    requires Inv(g, s') && o in s'.outputs
    ensures o.value == u
  {
    ChosenStays(g, s, s', u);
    ChosenIsUnique(g, s', u, o.value);
  }

  /**
   From every reachable state, a proposer can finish a round, new or begun before, for which there
   are acceptors left, and make any node learn that has not learned and counted nothing in the round.
   It gets to the round's number by the numbers that the program draws. Nobody else need take a step.
  */
  lemma ValueCanBeLearned(
    g: Group, s: System, p: nat, r: nat, v: Entry, order: seq<nat>, accepting: seq<nat>, l: nat)
    returns (m: System, s': System, w: Entry)
    requires Reachable(g, s) && 2 * g.threshold > g.n && Finishes(g, s, p, r, order, accepting)
    requires l < g.n && !s.nodes[l].learned && r !in s.nodes[l].tallies
    ensures Leads(SoloSteps(g, p, v), s, m) && m.outputs == s.outputs && Writes(g, m, s', l, w)
    ensures m.proposed == s.proposed + {v}
    ensures Reachable(g, m) && Reachable(g, s') && Output(l, w) in s'.outputs && Due(g, s, v, w)
    ensures |s'.nodes| == g.n
    ensures forall b :: 0 <= b < g.n && b != p && b != l && b !in order && b !in accepting ==>
      s'.nodes[b] == s.nodes[b]
  {
    var x := Climb(g, s, p, r, v);
    assert SameLearner(s.nodes[l], x.nodes[l]);
    forall a | a < g.n && a >= 0
      ensures x.nodes[a].rnd == s.nodes[a].rnd
    {
      assert SameAcceptor(s.nodes[a], x.nodes[a]);
    }
    m, s' := LearnedRound(g, x, p, r, v, order, accepting, l);
    w := RoundValue(g, x, p, r, v, order);
    LeadsThrough(SoloSteps(g, p, v), s, x, m);
    SoloProposes(g, s, m, p, v);
    WrittenIsDue(g, s, m, s', p, l, v, w);
  }

  // ----- The last number -----

  /** The acceptors that have promised only numbers below r. */
  ghost function Room(s: System, r: nat): set<nat> {
    set a | 0 <= a < |s.nodes| && s.nodes[a].rnd < r
  }

  /** Node p is short of a quorum of promises for the last number, and there are acceptors left to complete it. */
  ghost predicate CanFinish(g: Group, s: System, p: nat) {
    && p < |s.nodes|
    && var held := |Held(s.nodes[p], LAST_NUMBER)|;
      held < g.threshold <= held + |Room(s, LAST_NUMBER)|
  }

  ghost predicate Open(g: Group, s: System) {
    exists p: nat :: p < g.n && CanFinish(g, s, p)
  }

  lemma HeldAreNotInRoom(g: Group, s: System, p: nat, r: nat) returns (q: set<nat>)
    requires Inv(g, s) && p < g.n && r in s.nodes[p].promises
    ensures |q| == |s.nodes[p].promises[r]| && q !! Room(s, r) && q <= Below(g.n)
    ensures forall a :: a in q ==>
      exists i :: 0 <= i < |s.nodes[p].promises[r]| && s.nodes[p].promises[r][i].from == a
  {
    assert InvProposerState(g, s, p);
    q := PromisersOf(g, s, p, r);
    forall a | a in q
      ensures a !in Room(s, r)
    {
      var ps := s.nodes[p].promises[r];
      var i :| 0 <= i < |ps| && ps[i].from == a;
      assert Backed(s, p, r, ps) && Promises(s, a, p, r, ps[i].vrnd, ps[i].vval);
      assert InvAcceptorState(s, a);
    }
  }

  lemma RoomInRange(g: Group, s: System, r: nat)
    requires |s.nodes| == g.n
    ensures Room(s, r) <= Below(g.n)
  {
  }

  /** With those that have promised it, the room for a number is no more than the group. */
  lemma HeldAndRoom(g: Group, s: System, p: nat, r: nat)
    requires Inv(g, s) && p < g.n
    ensures |Held(s.nodes[p], r)| + |Room(s, r)| <= g.n
  {
    RoomInRange(g, s, r);
    var q: set<nat> := {};
    if r in s.nodes[p].promises {
      q := HeldAreNotInRoom(g, s, p, r);
    }
    SubsetSize(q + Room(s, r), Below(g.n));
    assert |q + Room(s, r)| == |q| + |Room(s, r)|;
  }

  /** Two nodes that hold promises for one number hold them from different acceptors. */
  lemma HeldApart(g: Group, s: System, p: nat, p': nat, r: nat)
    requires Inv(g, s) && p < g.n && p' < g.n && p != p'
    ensures |Held(s.nodes[p], r)| + |Held(s.nodes[p'], r)| + |Room(s, r)| <= g.n
  {
    RoomInRange(g, s, r);
    HeldAndRoom(g, s, p, r);
    HeldAndRoom(g, s, p', r);
    if r in s.nodes[p].promises && r in s.nodes[p'].promises {
      var q := HeldAreNotInRoom(g, s, p, r);
      var q' := HeldAreNotInRoom(g, s, p', r);
      forall a | a in q && a in q'
        ensures false
      {
        PromisedOnce(g, s, p, p', r, a);
      }
      SubsetSize(q + q' + Room(s, r), Below(g.n));
      assert |q + q' + Room(s, r)| == |q| + |q'| + |Room(s, r)|;
    }
  }

  lemma PromisedOnce(g: Group, s: System, p: nat, p': nat, r: nat, a: nat)
    requires Inv(g, s) && p < g.n && p' < g.n && r in s.nodes[p].promises && r in s.nodes[p'].promises
    requires exists i :: 0 <= i < |s.nodes[p].promises[r]| && s.nodes[p].promises[r][i].from == a
    requires exists i :: 0 <= i < |s.nodes[p'].promises[r]| && s.nodes[p'].promises[r][i].from == a
    ensures p == p'
  {
    assert InvProposerState(g, s, p) && InvProposerState(g, s, p');
    var ps, ps' := s.nodes[p].promises[r], s.nodes[p'].promises[r];
    var i :| 0 <= i < |ps| && ps[i].from == a;
    var j :| 0 <= j < |ps'| && ps'[j].from == a;
    assert Backed(s, p, r, ps) && Promises(s, a, p, r, ps[i].vrnd, ps[i].vval);
    assert Backed(s, p', r, ps') && Promises(s, a, p', r, ps'[j].vrnd, ps'[j].vval);
  }

  /** As long as a round can be finished, nobody has sent Accept messages for it. */
  lemma UnfinishedIsUnstarted(g: Group, s: System, p: nat, p': nat, r: nat, w: Entry)
    requires Inv(g, s) && p < g.n
    requires |Held(s.nodes[p], r)| < g.threshold <= |Held(s.nodes[p], r)| + |Room(s, r)|
    ensures !Started(s, p', r, w)
  {
    if Started(s, p', r, w) {
      StartedIsFull(g, s, p', r, w);
      HeldApart(g, s, p, p', r);
    }
  }

  lemma UnfinishedIsUncounted(g: Group, s: System, p: nat, l: nat, r: nat)
    requires Inv(g, s) && p < g.n && l < g.n
    requires |Held(s.nodes[p], r)| < g.threshold <= |Held(s.nodes[p], r)| + |Room(s, r)|
    ensures r !in s.nodes[l].tallies
  {
    if r in s.nodes[l].tallies {
      assert InvTallies(s, l);
      var tally := s.nodes[l].tallies[r];
      assert Counted(s, l, r, tally);
      var a :| 0 <= a < |s.nodes| && Accepted(s, a, r, tally.vval);
      var p' := WhoAsked(g, s, a, r, tally.vval);
      UnfinishedIsUnstarted(g, s, p, p', r, tally.vval);
    }
  }

  lemma {:induction false} PickSome(g: Group, from: set<nat>, k: nat) returns (order: seq<nat>)
    requires k <= |from| && from <= Below(g.n)
    ensures |order| == k && Quorum(g, order) && forall a :: a in order ==> a in from
  {
    if k == 0 {
      order := [];
    } else {
      var a :| a in from;
      var rest := PickSome(g, from - {a}, k - 1);
      order := rest + [a];
    }
  }

  lemma PickOrders(g: Group, s: System, p: nat) returns (order: seq<nat>, accepting: seq<nat>)
    requires Inv(g, s) && Small(s) && p < g.n && CanFinish(g, s, p)
    ensures Finishes(g, s, p, LAST_NUMBER, order, accepting)
  {
    HeldAndRoom(g, s, p, LAST_NUMBER);
    RoomInRange(g, s, LAST_NUMBER);
    order := PickSome(g, Room(s, LAST_NUMBER), g.threshold - |Held(s.nodes[p], LAST_NUMBER)|);
    accepting := Interval(0, g.threshold);
    InInterval(0, g.threshold);
  }

  /** While p can finish, it can make any node learn, whatever other messages there are or were. */
  lemma LastRound(g: Group, s: System, p: nat, l: nat, v: Entry) returns (m: System, s': System, w: Entry)
    requires g.threshold > 0 && 2 * g.threshold > g.n && Reachable(g, s) && Small(s)
    requires p < g.n && CanFinish(g, s, p) && l < |s.nodes| && !s.nodes[l].learned
    ensures Leads(SoloSteps(g, p, v), s, m) && m.outputs == s.outputs && Writes(g, m, s', l, w)
    ensures m.proposed == s.proposed + {v}
    ensures Reachable(g, m) && Reachable(g, s') && Output(l, w) in s'.outputs && Due(g, s, v, w)
  {
    ReachableHolds(g, s);
    var order, accepting := PickOrders(g, s, p);
    UnfinishedIsUncounted(g, s, p, l, LAST_NUMBER);
    m, s', w := ValueCanBeLearned(g, s, p, LAST_NUMBER, v, order, accepting, l);
  }
}
