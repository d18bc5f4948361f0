/** What every run of a Paxos instance guarantees. */
module PaxosAgreement {
  import opened Entries
  import opened PaxosNode
  import opened PaxosProtocol
  import opened PaxosInvariant
  import opened FiniteSets

  /**
   Quorums have to meet. With the choice loop as it is written that is not enough: the quorum has
   to be the whole group.
  */
  predicate Sound(g: Group) {
    2 * g.threshold > g.n && (g.rule.Documented? || g.threshold >= g.n)
  }

  /** A node that gathers promises for a later round hears about a chosen value. */
  lemma PromisesReachBack(g: Group, s: System, k: nat, v: Entry, p: nat, r: nat) returns (i: nat)
    requires Inv(g, s) && Sound(g)
    requires ChosenIn(g, s, k, v) && 0 < k < r
    requires p < g.n && r in s.nodes[p].proposal
    requires r in s.nodes[p].promises && |s.nodes[p].promises[r]| == g.threshold
    ensures i < |s.nodes[p].promises[r]|
    ensures k <= s.nodes[p].promises[r][i].vrnd
    ensures s.nodes[p].promises[r][i].vval == Choose(g.rule, s.nodes[p].proposal[r], s.nodes[p].promises[r])
  {
    var ps, own, acceptors := s.nodes[p].promises[r], s.nodes[p].proposal[r], Acceptors(g, s, k, v);
    assert InvProposerState(g, s, p);
    assert Backed(s, p, r, ps);
    var promisers := PromisersOf(g, s, p, r);
    var a := Overlap(g.n, acceptors, promisers);
    var j :| 0 <= j < |ps| && ps[j].from == a;
    assert Promises(s, a, p, r, ps[j].vrnd, ps[j].vval);
    assert Accepted(s, a, k, v);
    if g.rule.Literal? {
      forall j | 0 <= j < |ps|
        ensures k <= ps[j].vrnd
      {
        assert Promises(s, ps[j].from, p, r, ps[j].vrnd, ps[j].vval);
        EveryoneAccepted(g, s, k, v, ps[j].from);
      }
    }
    i := ChoiceReachesBack(g.rule, own, ps, k);
  }

  lemma EveryoneAccepted(g: Group, s: System, k: nat, v: Entry, a: nat)
    requires ChosenIn(g, s, k, v) && g.threshold >= g.n && a < g.n
    ensures Accepted(s, a, k, v)
  {
    var acceptors := Acceptors(g, s, k, v);
    if a !in acceptors {
      SubsetSize(acceptors, Below(g.n) - {a});
    }
  }

  /** Once v is chosen in round k, every Accept message of round k or later carries v. */
  lemma {:induction false} LaterRoundsKeepValue(g: Group, s: System, k: nat, v: Entry, p: nat, r: nat, w: Entry)
    requires Inv(g, s) && Sound(g)
    requires ChosenIn(g, s, k, v) && Started(s, p, r, w) && k <= r
    ensures v == w
    decreases r
  {
    var a := Overlap(g.n, Acceptors(g, s, k, v), Below(g.n));
    assert Accepted(s, a, k, v) && InvAcceptorState(s, a);
    if k == r {
      var q := WhoAsked(g, s, a, k, v);
      OneValuePerRound(g, s, p, q, r, w, v);
    } else {
      StartedIsPositive(g, s, p, r, w);
      assert InvProposerState(g, s, p);
      var ps := s.nodes[p].promises[r];
      var i := PromisesReachBack(g, s, k, v, p, r);
      assert Backed(s, p, r, ps);
      var b, m := ps[i].from, ps[i].vrnd;
      assert Promises(s, b, p, r, m, w);
      assert Envelope(b, p, Promise(r, m, w)) in s.sent;
      assert InvAcceptorState(s, b);
      assert Accepted(s, b, m, w);
      var q := WhoAsked(g, s, b, m, w);
      LaterRoundsKeepValue(g, s, k, v, q, m, w);
    }
  }

  /** At most one value is ever chosen. */
  lemma ChosenIsUnique(g: Group, s: System, v: Entry, w: Entry)
    requires Inv(g, s) && Sound(g) && Chosen(g, s, v) && Chosen(g, s, w)
    ensures v == w
  {
    var k :| ChosenIn(g, s, k, v);
    var m :| ChosenIn(g, s, m, w);
    var a := Overlap(g.n, Acceptors(g, s, k, v), Below(g.n));
    var b := Overlap(g.n, Acceptors(g, s, m, w), Below(g.n));
    assert Accepted(s, a, k, v) && Accepted(s, b, m, w);
    var p := WhoAsked(g, s, a, k, v);
    var q := WhoAsked(g, s, b, m, w);
    if k <= m {
      LaterRoundsKeepValue(g, s, k, v, q, m, w);
    } else {
      LaterRoundsKeepValue(g, s, m, w, p, k, v);
    }
  }

  ghost predicate Agree(s: System) {
    forall o, o' :: o in s.outputs && o' in s.outputs ==> o.value == o'.value
  }

  /** Agreement: in every run, all values that nodes write for one instance are the same. */
  lemma Agreement(g: Group, s: System)
    requires g.threshold > 0 && Sound(g) && Reachable(g, s)
    ensures Agree(s)
  {
    ReachableHolds(g, s);
    forall o, o' | o in s.outputs && o' in s.outputs
      ensures o.value == o'.value
    {
      ChosenIsUnique(g, s, o.value, o'.value);
    }
  }

  lemma ChosenIsProposed(g: Group, s: System, v: Entry)
    requires Inv(g, s) && Chosen(g, s, v)
    ensures v in s.proposed
  {
    var k :| ChosenIn(g, s, k, v);
    var a := Overlap(g.n, Acceptors(g, s, k, v), Below(g.n));
    assert Accepted(s, a, k, v);
    var p := WhoAsked(g, s, a, k, v);
    assert Envelope(p, p, Accept(k, v)) in s.sent;
  }

  /**
   Validity, with colliding and repeated proposal numbers: whatever a node accepts or writes was
   proposed for this instance, round 0 is never accepted, and no promise ever fails an assertion.
  */
  lemma Validity(g: Group, s: System)
    requires g.threshold > 0 && 2 * g.threshold > g.n && Reachable(g, s)
    ensures forall o :: o in s.outputs ==> o.value in s.proposed
    ensures forall a :: 0 <= a < |s.nodes| && s.nodes[a].vrnd > 0 ==> s.nodes[a].vval in s.proposed
    ensures forall e :: e in s.sent && (e.msg.Accept? || e.msg.Learn?) ==> e.msg.vrnd > 0 && e.msg.vval in s.proposed
    ensures forall e :: e in s.net ==> e.dst < |s.nodes| && !Received(g, s, e).failed
  {
    ReachableHolds(g, s);
    forall o | o in s.outputs
      ensures o.value in s.proposed
    {
      ChosenIsProposed(g, s, o.value);
    }
    forall e | e in s.net
      ensures e.dst < |s.nodes| && !Received(g, s, e).failed
    {
      PromiseNeverFails(g, s, e);
    }
    forall p: nat, r: nat, v | Started(s, p, r, v)
      ensures r > 0 && v in s.proposed
    {
      StartedIsPositive(g, s, p, r, v);
    }
    forall a: nat, r: nat, v | Accepted(s, a, r, v)
      ensures r > 0 && v in s.proposed
    {
      var p := WhoAsked(g, s, a, r, v);
    }
    forall a | 0 <= a < |s.nodes| && s.nodes[a].vrnd > 0
      ensures s.nodes[a].vval in s.proposed
    {
      assert InvAcceptorState(s, a);
      assert Accepted(s, a, s.nodes[a].vrnd, s.nodes[a].vval);
    }
  }

  lemma NewAcceptIsFirst(g: Group, s: System, s': System, step: Step, e: Envelope, f: Envelope)
    requires Inv(g, s) && StepOf(g, s, s', step)
    requires e in s'.sent && (e !in s.sent || (e in s'.net && e !in s.net)) && e.msg.Accept?
    requires f.msg.Accept? && e.msg.vrnd == f.msg.vrnd
    ensures f !in s.sent
  {
    match step
    case Propose(p, number, v) =>
      ProposeMoves(g, s, p, number, v);
      assert false;
    case Lose(_) =>
      assert false;
    case Deliver(d) =>
      DeliverMoves(g, s, d);
      DeliveredAcceptIsFirst(g, s, s', d, Received(g, s, d), e, f);
  }

  lemma DeliveredAcceptIsFirst(g: Group, s: System, s': System, d: Envelope, eff: Effect, e: Envelope, f: Envelope)
    requires Inv(g, s) && Delivers(g, s, s', d, eff)
    requires e in Envelopes(g, d.dst, eff.send) && e.msg.Accept?
    requires f.msg.Accept? && e.msg.vrnd == f.msg.vrnd
    ensures f !in s.sent
  {
    assert d.msg.Promise?;
    AcceptIsFirst(g, s, s', d, eff, f.src, f.msg.vval);
  }

  /**
   One value per round: in every run, for each number at most one node ever sends Accept messages,
   all with one value, and it does so in a single step, whichever numbers the nodes drew. None of
   those messages is ever in the bag twice, nor back in it after it left.
  */
  lemma AcceptOncePerRound(g: Group, s: System, s': System, e: Envelope, f: Envelope)
    requires g.threshold > 0 && 2 * g.threshold > g.n && Reachable(g, s) && Next(g, s, s')
    requires e in s'.sent && f in s'.sent && e.msg.Accept? && f.msg.Accept? && e.msg.vrnd == f.msg.vrnd
    ensures e.src == f.src && e.msg == f.msg
    ensures e in s.sent <==> f in s.sent
    ensures e in s'.net ==> s'.net[e] == 1
    ensures e in s.sent && e !in s.net ==> e !in s'.net
  {
    ReachableHolds(g, s);
    NextKeeps(g, s, s');
    OneValuePerRound(g, s', e.src, f.src, e.msg.vrnd, e.msg.vval, f.msg.vval);
    var step :| StepOf(g, s, s', step);
    if e !in s.sent {
      NewAcceptIsFirst(g, s, s', step, e, f);
    } else if f !in s.sent {
      NewAcceptIsFirst(g, s, s', step, f, e);
    } else if e in s'.net && e !in s.net {
      NewAcceptIsFirst(g, s, s', step, e, e);
    }
  }
}
