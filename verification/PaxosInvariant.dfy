/** Every step of a Paxos instance keeps the invariant. */
module PaxosInvariant {
  import opened Paths
  import opened Entries
  import opened PaxosNode
  import opened PaxosProtocol
  import opened FiniteSets

  // ----- Quorums -----

  ghost predicate InRange(g: Group, s: System) {
    |s.nodes| == g.n && forall e :: e in s.sent ==> e.src < g.n
  }

  lemma PromisersOf(g: Group, s: System, p: nat, r: nat) returns (q: set<nat>)
    requires InRange(g, s) && p < g.n && InvProposerState(g, s, p)
    requires r in s.nodes[p].promises
    ensures |q| == |s.nodes[p].promises[r]|
    ensures forall a :: a in q ==> a < g.n
    ensures forall a :: a in q ==>
      exists i :: 0 <= i < |s.nodes[p].promises[r]| && s.nodes[p].promises[r][i].from == a
  {
    var ps := s.nodes[p].promises[r];
    assert Backed(s, p, r, ps);
    var froms := seq(|ps|, i requires 0 <= i < |ps| => ps[i].from);
    q := DistinctSize(froms);
    forall a | a in q
      ensures a < g.n && exists i :: 0 <= i < |ps| && ps[i].from == a
    {
      var i :| 0 <= i < |froms| && froms[i] == a;
      assert Promises(s, ps[i].from, p, r, ps[i].vrnd, ps[i].vval);
    }
  }

  /** Two full quorums of promises for one number share a promise, so they belong to one node. */
  lemma OnePreparer(g: Group, s: System, p: nat, p': nat, r: nat)
    requires InRange(g, s) && InvPromises(s) && 2 * g.threshold > g.n
    requires p < g.n && InvProposerState(g, s, p)
    requires p' < g.n && InvProposerState(g, s, p')
    requires r in s.nodes[p].promises && |s.nodes[p].promises[r]| >= g.threshold
    requires r in s.nodes[p'].promises && |s.nodes[p'].promises[r]| >= g.threshold
    ensures p == p'
  {
    var q := PromisersOf(g, s, p, r);
    var q' := PromisersOf(g, s, p', r);
    var a := Overlap(g.n, q, q');
    var ps, ps' := s.nodes[p].promises[r], s.nodes[p'].promises[r];
    var i :| 0 <= i < |ps| && ps[i].from == a;
    var j :| 0 <= j < |ps'| && ps'[j].from == a;
    assert Backed(s, p, r, ps) && Backed(s, p', r, ps');
    assert Promises(s, a, p, r, ps[i].vrnd, ps[i].vval);
    assert Promises(s, a, p', r, ps'[j].vrnd, ps'[j].vval);
  }

  /** Whoever is asked to accept in round r is asked by one node and for one value. */
  lemma OneValuePerRound(g: Group, s: System, p: nat, p': nat, r: nat, v: Entry, v': Entry)
    requires Inv(g, s)
    requires Started(s, p, r, v) && Started(s, p', r, v')
    ensures p == p' && v == v'
  {
    assert Envelope(p, p, Accept(r, v)) in s.sent && Envelope(p', p', Accept(r, v')) in s.sent;
    OnePreparer(g, s, p, p', r);
  }

  // ----- What a step changes -----

  /** Only node p moved, and it sent `out`; other messages may have left the bag. */
  ghost predicate Moves(s: System, s': System, p: nat, out: set<Envelope>) {
    && |s'.nodes| == |s.nodes|
    && (forall a :: 0 <= a < |s.nodes| && a != p ==> s'.nodes[a] == s.nodes[a])
    && s'.sent == s.sent + out
    && s.proposed <= s'.proposed
    && (forall f :: f in s'.net ==> f in out || (f in s.net && s'.net[f] <= s.net[f]))
    && (forall f :: f in out && f !in s.net ==> s'.net[f] == 1)
  }

  // A broadcast, or a message to one node, that was never sent before unless it is a Prepare.
  ghost predicate WellSent(g: Group, s: System, p: nat, out: set<Envelope>) {
    && (forall f :: f in out ==> f.src == p && f.src < g.n && f.dst < g.n)
    && (forall f :: f in out && (f.msg.Learn? || f.msg.Accept?) ==> Envelope(p, p, f.msg) in out)
    && (forall f :: f in out && !f.msg.Prepare? ==> f !in s.sent)
  }

  /** Node e.dst has received e. */
  ghost predicate Delivers(g: Group, s: System, s': System, e: Envelope, eff: Effect) {
    && e.src < g.n && e.dst < g.n == |s.nodes| && e in s.sent && e in s.net
    && eff == Received(g, s, e)
    && Moves(s, s', e.dst, Envelopes(g, e.dst, eff.send))
    && s'.nodes[e.dst] == eff.node
    && s'.proposed == s.proposed
    && s'.outputs == s.outputs + (if eff.wrote.Some? then {Output(e.dst, eff.wrote.value)} else {})
    && (e !in s'.net || e.msg.Prepare? || e in Envelopes(g, e.dst, eff.send))
  }

  lemma DeliverMoves(g: Group, s: System, e: Envelope)
    requires InvShape(g, s) && e in s.net
    ensures Delivers(g, s, AfterDeliver(g, s, e), e, Received(g, s, e))
  {
  }

  /** Node p has proposed v under `number`. */
  ghost predicate Proposes(g: Group, s: System, s': System, p: nat, number: nat, v: Entry) {
    && p < g.n == |s.nodes|
    && Moves(s, s', p, Fanout(g.n, p, Prepare(number)))
    && s'.nodes[p] == OnPropose(s.nodes[p], number, v).node
    && s'.proposed == s.proposed + {v}
    && s'.outputs == s.outputs
  }

  lemma ProposeMoves(g: Group, s: System, p: nat, number: nat, v: Entry)
    requires InvShape(g, s) && p < g.n
    ensures Proposes(g, s, AfterPropose(g, s, p, number, v), p, number, v)
  {
  }

  lemma LoseMoves(s: System, e: Envelope)
    requires e in s.net
    ensures Moves(s, s.(net := s.net - multiset{e}), 0, {})
  {
  }

  /** Messages only accumulate: what is new is what was just sent. */
  lemma Sent(s: System, s': System, p: nat, out: set<Envelope>)
    requires Moves(s, s', p, out)
    ensures forall a: nat, r: nat, v ::
      Accepted(s', a, r, v) <==> Accepted(s, a, r, v) || Envelope(a, a, Learn(r, v)) in out
    ensures forall a: nat, r: nat, v ::
      Started(s', a, r, v) <==> Started(s, a, r, v) || Envelope(a, a, Accept(r, v)) in out
    ensures forall a: nat, b: nat, r: nat, vr: nat, v ::
      Promises(s', a, b, r, vr, v) <==> Promises(s, a, b, r, vr, v) || Envelope(a, b, Promise(r, vr, v)) in out
  {
  }

  lemma ChosenStays(g: Group, s: System, s': System, v: Entry)
    requires s.sent <= s'.sent && Chosen(g, s, v)
    ensures Chosen(g, s', v)
  {
    var r :| ChosenIn(g, s, r, v);
    assert forall a :: Accepted(s, a, r, v) ==> Accepted(s', a, r, v);
    SubsetSize(Acceptors(g, s, r, v), Acceptors(g, s', r, v));
    assert ChosenIn(g, s', r, v);
  }

  // ----- Parts of the invariant that a step does not touch -----

  lemma KeepShape(g: Group, s: System, s': System, p: nat, out: set<Envelope>)
    requires InvShape(g, s) && Moves(s, s', p, out) && WellSent(g, s, p, out)
    ensures InvShape(g, s')
  {
    Sent(s, s', p, out);
  }

  lemma KeepAcceptorState(g: Group, s: System, s': System, p: nat, out: set<Envelope>, a: nat)
    requires Moves(s, s', p, out)
    requires a < |s.nodes| && InvAcceptorState(s, a)
    requires forall f :: f in out && f.src == a ==> !f.msg.Promise? && !f.msg.Learn?
    requires s'.nodes[a].rnd == s.nodes[a].rnd
    requires s'.nodes[a].vrnd == s.nodes[a].vrnd && s'.nodes[a].vval == s.nodes[a].vval
    ensures InvAcceptorState(s', a)
  {
    Sent(s, s', p, out);
  }

  lemma KeepPromises(g: Group, s: System, s': System, p: nat, out: set<Envelope>)
    requires InvPromises(s) && Moves(s, s', p, out)
    requires forall f :: f in out ==> !f.msg.Promise? && !f.msg.Learn?
    ensures InvPromises(s')
  {
    Sent(s, s', p, out);
  }

  lemma WhoAsked(g: Group, s: System, a: nat, r: nat, v: Entry) returns (p: nat)
    requires InvAccepts(g, s) && Accepted(s, a, r, v)
    ensures p < g.n && Started(s, p, r, v)
  {
    assert Asked(g, s, r, v);
    p :| 0 <= p < g.n && Started(s, p, r, v);
  }

  lemma StillAsked(g: Group, s: System, s': System, a: nat, r: nat, v: Entry)
    requires InvAccepts(g, s) && Accepted(s, a, r, v) && s.sent <= s'.sent
    ensures Asked(g, s', r, v)
  {
    var p := WhoAsked(g, s, a, r, v);
    assert Started(s', p, r, v);
  }

  lemma KeepAccepts(g: Group, s: System, s': System, p: nat, out: set<Envelope>)
    requires InvAccepts(g, s) && Moves(s, s', p, out)
    requires forall f :: f in out ==> !f.msg.Accept? && !f.msg.Learn?
    ensures InvAccepts(g, s')
  {
    Sent(s, s', p, out);
    forall a: nat, r: nat, v | Accepted(s', a, r, v)
      ensures Asked(g, s', r, v)
    {
      StillAsked(g, s, s', a, r, v);
    }
  }

  lemma BackedStays(s: System, s': System, p: nat, out: set<Envelope>, b: nat, r: nat, promises: seq<Promised>)
    requires Moves(s, s', p, out) && Backed(s, b, r, promises)
    requires forall f :: f in out && f.msg.Promise? ==> f !in s.sent
    ensures Backed(s', b, r, promises)
  {
    Sent(s, s', p, out);
    forall i | 0 <= i < |promises|
      ensures Envelope(promises[i].from, b, Promise(r, promises[i].vrnd, promises[i].vval)) !in s'.net
    {
      assert Promises(s, promises[i].from, b, r, promises[i].vrnd, promises[i].vval);
    }
  }

  lemma KeepProposerState(g: Group, s: System, s': System, p: nat, out: set<Envelope>, b: nat)
    requires Moves(s, s', p, out)
    requires b < |s.nodes| && InvProposerState(g, s, b)
    requires forall f :: f in out && f.msg.Prepare? ==> f.src != b
    requires forall f :: f in out && f.msg.Promise? ==>
      f !in s.sent && (f.dst == b ==> f.msg.rnd in s.nodes[b].promises)
    requires s'.nodes[b].promises == s.nodes[b].promises && s'.nodes[b].proposal == s.nodes[b].proposal
    ensures InvProposerState(g, s', b)
  {
    Sent(s, s', p, out);
    forall r | r in s'.nodes[b].promises
      ensures Backed(s', b, r, s'.nodes[b].promises[r])
    {
      BackedStays(s, s', p, out, b, r, s.nodes[b].promises[r]);
    }
  }

  lemma KeepStarts(g: Group, s: System, s': System, p: nat, out: set<Envelope>)
    requires InvStarts(g, s) && Moves(s, s', p, out)
    requires forall f :: f in out ==> !f.msg.Accept?
    requires p < |s.nodes| ==>
      forall r :: r in s.nodes[p].promises && r in s.nodes[p].proposal && |s.nodes[p].promises[r]| == g.threshold ==>
        && r in s'.nodes[p].promises && s'.nodes[p].promises[r] == s.nodes[p].promises[r]
        && r in s'.nodes[p].proposal && s'.nodes[p].proposal[r] == s.nodes[p].proposal[r]
    ensures InvStarts(g, s')
  {
    Sent(s, s', p, out);
  }

  lemma CountedStays(s: System, s': System, p: nat, out: set<Envelope>, l: nat, r: nat, tally: Tally)
    requires Moves(s, s', p, out) && Counted(s, l, r, tally)
    requires forall f :: f in out && f.msg.Learn? ==> !Accepted(s, f.src, f.msg.vrnd, f.msg.vval)
    ensures Counted(s', l, r, tally)
  {
    Sent(s, s', p, out);
    var a :| 0 <= a < |s.nodes| && Accepted(s, a, r, tally.vval);
    assert Accepted(s', a, r, tally.vval);
  }

  lemma KeepTallies(s: System, s': System, p: nat, out: set<Envelope>, l: nat)
    requires Moves(s, s', p, out)
    requires l < |s.nodes| && InvTallies(s, l)
    requires forall f :: f in out && f.msg.Learn? ==> !Accepted(s, f.src, f.msg.vrnd, f.msg.vval)
    requires s'.nodes[l].tallies == s.nodes[l].tallies
    ensures InvTallies(s', l)
  {
    forall r | r in s'.nodes[l].tallies
      ensures Counted(s', l, r, s'.nodes[l].tallies[r])
    {
      CountedStays(s, s', p, out, l, r, s.nodes[l].tallies[r]);
    }
  }

  lemma KeepOutputs(g: Group, s: System, s': System)
    requires InvOutputs(g, s) && s.sent <= s'.sent && s'.outputs == s.outputs
    ensures InvOutputs(g, s')
  {
    forall o | o in s'.outputs
      ensures Chosen(g, s', o.value)
    {
      ChosenStays(g, s, s', o.value);
    }
  }

  // ----- The steps -----

  lemma InitHolds(g: Group)
    requires g.threshold > 0 && 2 * g.threshold > g.n
    ensures Inv(g, Init(g))
  {
  }

  lemma LoseKeeps(g: Group, s: System, e: Envelope)
    requires Inv(g, s) && e in s.net
    ensures Inv(g, s.(net := s.net - multiset{e}))
  {
    var s' := s.(net := s.net - multiset{e});
    LoseMoves(s, e);
    KeepShape(g, s, s', 0, {});
    KeepPromises(g, s, s', 0, {});
    KeepAccepts(g, s, s', 0, {});
    KeepStarts(g, s, s', 0, {});
    KeepOutputs(g, s, s');
    forall a | 0 <= a < g.n
      ensures InvAcceptorState(s', a) && InvProposerState(g, s', a) && InvTallies(s', a)
    {
      KeepAcceptorState(g, s, s', 0, {}, a);
      KeepProposerState(g, s, s', 0, {}, a);
      KeepTallies(s, s', 0, {}, a);
    }
  }

  // Proposing.

  lemma ProposeKeepsProposer(g: Group, s: System, s': System, p: nat, number: nat, v: Entry)
    requires Proposes(g, s, s', p, number, v) && InvProposerState(g, s, p) && g.threshold > 0
    ensures InvProposerState(g, s', p)
  {
    var out := Fanout(g.n, p, Prepare(number));
    Sent(s, s', p, out);
    forall r | r in s'.nodes[p].promises
      ensures Backed(s', p, r, s'.nodes[p].promises[r])
    {
      if r in s.nodes[p].promises {
        BackedStays(s, s', p, out, p, r, s.nodes[p].promises[r]);
      }
    }
  }

  lemma ProposeKeeps(g: Group, s: System, s': System, p: nat, number: nat, v: Entry)
    requires Inv(g, s) && Proposes(g, s, s', p, number, v)
    ensures Inv(g, s')
  {
    var out := Fanout(g.n, p, Prepare(number));
    KeepShape(g, s, s', p, out);
    KeepPromises(g, s, s', p, out);
    KeepAccepts(g, s, s', p, out);
    KeepStarts(g, s, s', p, out);
    KeepOutputs(g, s, s');
    forall a | 0 <= a < g.n
      ensures InvAcceptorState(s', a) && InvProposerState(g, s', a) && InvTallies(s', a)
    {
      KeepAcceptorState(g, s, s', p, out, a);
      KeepTallies(s, s', p, out, a);
      if a == p {
        ProposeKeepsProposer(g, s, s', p, number, v);
      } else {
        KeepProposerState(g, s, s', p, out, a);
      }
    }
  }

  // Receiving a Prepare message.

  lemma PrepareKeepsAcceptor(g: Group, s: System, s': System, e: Envelope, eff: Effect)
    requires Delivers(g, s, s', e, eff) && e.msg.Prepare?
    requires InvAcceptorState(s, e.dst) && InvPromises(s)
    ensures InvAcceptorState(s', e.dst) && InvPromises(s')
  {
    Sent(s, s', e.dst, Envelopes(g, e.dst, eff.send));
  }

  lemma PrepareIsWellSent(g: Group, s: System, s': System, e: Envelope, eff: Effect)
    requires Delivers(g, s, s', e, eff) && e.msg.Prepare?
    requires InvAcceptorState(s, e.dst)
    ensures WellSent(g, s, e.dst, Envelopes(g, e.dst, eff.send))
  {
    var node := s.nodes[e.dst];
    assert !Promises(s, e.dst, e.src, e.msg.rnd, node.vrnd, node.vval) || e.msg.rnd <= node.rnd;
  }

  lemma PrepareKeeps(g: Group, s: System, s': System, e: Envelope, eff: Effect)
    requires Inv(g, s) && Delivers(g, s, s', e, eff) && e.msg.Prepare?
    ensures Inv(g, s')
  {
    var out := Envelopes(g, e.dst, eff.send);
    PrepareIsWellSent(g, s, s', e, eff);
    PrepareKeepsAcceptor(g, s, s', e, eff);
    KeepShape(g, s, s', e.dst, out);
    KeepAccepts(g, s, s', e.dst, out);
    KeepStarts(g, s, s', e.dst, out);
    KeepOutputs(g, s, s');
    assert InvProposerState(g, s, e.src) && e == Envelope(e.src, e.dst, Prepare(e.msg.rnd));
    forall a | 0 <= a < g.n
      ensures InvAcceptorState(s', a) && InvProposerState(g, s', a) && InvTallies(s', a)
    {
      if a != e.dst {
        KeepAcceptorState(g, s, s', e.dst, out, a);
      }
      KeepProposerState(g, s, s', e.dst, out, a);
      KeepTallies(s, s', e.dst, out, a);
    }
  }

  // Receiving a Promise message.

  /** Neither assertion of the promise handler can fail. */
  lemma PromiseNeverFails(g: Group, s: System, e: Envelope)
    requires Inv(g, s) && e in s.net
    ensures e.dst < |s.nodes| && !Received(g, s, e).failed
  {
    assert InvProposerState(g, s, e.dst);
    if e.msg.Promise? {
      assert Promises(s, e.src, e.dst, e.msg.rnd, e.msg.vrnd, e.msg.vval);
    }
  }

  lemma PromiseIsNew(g: Group, s: System, s': System, e: Envelope, eff: Effect)
    requires Delivers(g, s, s', e, eff) && e.msg.Promise?
    requires InvProposerState(g, s, e.dst) && InvPromises(s)
    requires e.msg.rnd in s.nodes[e.dst].promises && |s.nodes[e.dst].promises[e.msg.rnd]| < g.threshold
    ensures e.msg.rnd in s'.nodes[e.dst].promises
    ensures Backed(s', e.dst, e.msg.rnd, s'.nodes[e.dst].promises[e.msg.rnd])
  {
    var p, r, out := e.dst, e.msg.rnd, Envelopes(g, e.dst, eff.send);
    var ps := s.nodes[p].promises[r];
    assert s'.nodes[p].promises[r] == ps + [Promised(e.src, e.msg.vrnd, e.msg.vval)];
    assert Backed(s, p, r, ps);
    BackedStays(s, s', p, out, p, r, ps);
    assert Promises(s, e.src, p, r, e.msg.vrnd, e.msg.vval);
    forall i | 0 <= i < |ps|
      ensures ps[i].from != e.src
    {
      assert Promises(s, ps[i].from, p, r, ps[i].vrnd, ps[i].vval);
    }
    Sent(s, s', p, out);
  }

  lemma PromiseKeepsBacked(g: Group, s: System, s': System, e: Envelope, eff: Effect)
    requires Delivers(g, s, s', e, eff) && e.msg.Promise?
    requires InvProposerState(g, s, e.dst) && InvPromises(s)
    ensures
      var p := e.dst;
      forall r :: r in s'.nodes[p].promises ==> Backed(s', p, r, s'.nodes[p].promises[r])
  {
    var p, out := e.dst, Envelopes(g, e.dst, eff.send);
    Sent(s, s', p, out);
    forall r | r in s'.nodes[p].promises
      ensures Backed(s', p, r, s'.nodes[p].promises[r])
    {
      if r == e.msg.rnd && |s.nodes[p].promises[r]| < g.threshold {
        PromiseIsNew(g, s, s', e, eff);
      } else {
        BackedStays(s, s', p, out, p, r, s.nodes[p].promises[r]);
      }
    }
  }

  lemma PromiseKeepsProposer(g: Group, s: System, s': System, e: Envelope, eff: Effect)
    requires Delivers(g, s, s', e, eff) && e.msg.Promise?
    requires InvProposerState(g, s, e.dst) && InvPromises(s)
    ensures InvProposerState(g, s', e.dst)
  {
    PromiseKeepsBacked(g, s, s', e, eff);
    Sent(s, s', e.dst, Envelopes(g, e.dst, eff.send));
  }

  lemma StartedIsFull(g: Group, s: System, p: nat, r: nat, v: Entry)
    requires InvShape(g, s) && InvStarts(g, s) && Started(s, p, r, v)
    ensures p < g.n && r in s.nodes[p].promises && |s.nodes[p].promises[r]| == g.threshold
  {
    assert Envelope(p, p, Accept(r, v)) in s.sent;
  }

  lemma AcceptFillsUp(g: Group, s: System, s': System, e: Envelope, eff: Effect)
    requires Delivers(g, s, s', e, eff) && e.msg.Promise? && eff.send.ToAll? && eff.send.msg.Accept?
    ensures eff.send.msg.vrnd == e.msg.rnd && e.msg.rnd in s.nodes[e.dst].promises
    ensures |s.nodes[e.dst].promises[e.msg.rnd]| < g.threshold
    ensures e.msg.rnd in s'.nodes[e.dst].promises && |s'.nodes[e.dst].promises[e.msg.rnd]| == g.threshold
  {
  }

  lemma PromiseKeepsOthers(g: Group, s: System, s': System, e: Envelope, eff: Effect, p: nat)
    requires Inv(g, s) && Delivers(g, s, s', e, eff) && e.msg.Promise?
    requires p < g.n && p != e.dst
    ensures InvPromises(s') && InvProposerState(g, s', p) && s'.nodes[p] == s.nodes[p]
  {
    var out := Envelopes(g, e.dst, eff.send);
    KeepPromises(g, s, s', e.dst, out);
    KeepProposerState(g, s, s', e.dst, out, p);
  }

  /** When the Accept message of a round goes out, none went out before. */
  lemma AcceptIsFirst(g: Group, s: System, s': System, e: Envelope, eff: Effect, p: nat, v: Entry)
    requires Inv(g, s) && Delivers(g, s, s', e, eff) && e.msg.Promise?
    requires eff.send.ToAll? && eff.send.msg.Accept?
    ensures !Started(s, p, eff.send.msg.vrnd, v)
  {
    AcceptFillsUp(g, s, s', e, eff);
    if Started(s, p, eff.send.msg.vrnd, v) {
      StartedIsFull(g, s, p, eff.send.msg.vrnd, v);
      PromiseKeepsOthers(g, s, s', e, eff, p);
      assert InvProposerState(g, s, e.dst);
      PromiseKeepsProposer(g, s, s', e, eff);
      OnePreparer(g, s', p, e.dst, e.msg.rnd);
    }
  }

  lemma PromiseIsWellSent(g: Group, s: System, s': System, e: Envelope, eff: Effect)
    requires Inv(g, s) && Delivers(g, s, s', e, eff) && e.msg.Promise?
    ensures WellSent(g, s, e.dst, Envelopes(g, e.dst, eff.send))
  {
    forall f | f in Envelopes(g, e.dst, eff.send)
      ensures f !in s.sent
    {
      AcceptIsFirst(g, s, s', e, eff, f.src, f.msg.vval);
    }
  }

  lemma PromiseKeepsAccepts(g: Group, s: System, s': System, e: Envelope, eff: Effect)
    requires Inv(g, s) && Delivers(g, s, s', e, eff) && e.msg.Promise?
    ensures InvAccepts(g, s')
  {
    var out := Envelopes(g, e.dst, eff.send);
    Sent(s, s', e.dst, out);
    forall a: nat, r: nat, v | Accepted(s', a, r, v)
      ensures Asked(g, s', r, v)
    {
      StillAsked(g, s, s', a, r, v);
    }
    forall f, v | f in s'.net && f.msg.Accept?
      ensures !Accepted(s', f.dst, f.msg.vrnd, v)
    {
      if f in out && Accepted(s, f.dst, f.msg.vrnd, v) {
        var p := WhoAsked(g, s, f.dst, f.msg.vrnd, v);
        AcceptIsFirst(g, s, s', e, eff, p, v);
      }
    }
  }

  /** The chosen value was proposed: it is the proposer's own or one that somebody accepted. */
  lemma ChoiceIsProposed(g: Group, s: System, p: nat, r: nat, promises: seq<Promised>)
    requires Inv(g, s) && p < g.n && r in s.nodes[p].proposal
    requires forall i :: 0 <= i < |promises| ==>
      Promises(s, promises[i].from, p, r, promises[i].vrnd, promises[i].vval)
    ensures Choose(g.rule, s.nodes[p].proposal[r], promises) in s.proposed
  {
    assert InvProposerState(g, s, p);
    ChoiceIsOwnOrReported(g.rule, s.nodes[p].proposal[r], promises);
    if Choose(g.rule, s.nodes[p].proposal[r], promises) != s.nodes[p].proposal[r] {
      var i :| 0 <= i < |promises| && promises[i].vrnd > 0
               && promises[i].vval == Choose(g.rule, s.nodes[p].proposal[r], promises);
      var a, vr, v := promises[i].from, promises[i].vrnd, promises[i].vval;
      assert Promises(s, a, p, r, vr, v);
      assert InvAcceptorState(s, a) && Accepted(s, a, vr, v);
      var b := WhoAsked(g, s, a, vr, v);
    }
  }

  lemma AcceptKeepsStarts(g: Group, s: System, s': System, e: Envelope, eff: Effect)
    requires Delivers(g, s, s', e, eff) && e.msg.Promise?
    requires InvStarts(g, s)
    requires e.msg.rnd in s.nodes[e.dst].promises && e.msg.rnd in s.nodes[e.dst].proposal
    requires eff.send.ToAll? && eff.send.msg.Accept? && eff.send.msg.vval in s.proposed
    ensures InvStarts(g, s')
  {
    var p, r, out := e.dst, e.msg.rnd, Envelopes(g, e.dst, eff.send);
    Sent(s, s', p, out);
    forall a: nat, k: nat, v | Started(s', a, k, v) && a < |s'.nodes|
      ensures v in s'.proposed && k in s'.nodes[a].promises && k in s'.nodes[a].proposal
      ensures |s'.nodes[a].promises[k]| == g.threshold
      ensures v == Choose(g.rule, s'.nodes[a].proposal[k], s'.nodes[a].promises[k])
    {
      if Started(s, a, k, v) {
        assert a != p || k != r;
      }
    }
  }

  lemma PromiseKeepsStarts(g: Group, s: System, s': System, e: Envelope, eff: Effect)
    requires Inv(g, s) && Delivers(g, s, s', e, eff) && e.msg.Promise?
    ensures InvStarts(g, s')
  {
    var p, r, out := e.dst, e.msg.rnd, Envelopes(g, e.dst, eff.send);
    assert InvProposerState(g, s, p);
    PromiseNeverFails(g, s, e);
    if eff.send.Silent? {
      KeepStarts(g, s, s', p, out);
    } else {
      var ps' := s.nodes[p].promises[r] + [Promised(e.src, e.msg.vrnd, e.msg.vval)];
      assert Backed(s, p, r, s.nodes[p].promises[r]);
      assert Promises(s, e.src, p, r, e.msg.vrnd, e.msg.vval);
      ChoiceIsProposed(g, s, p, r, ps');
      AcceptKeepsStarts(g, s, s', e, eff);
    }
  }

  lemma PromiseKeepsNodes(g: Group, s: System, s': System, e: Envelope, eff: Effect, a: nat)
    requires Delivers(g, s, s', e, eff) && e.msg.Promise? && a < g.n
    requires InvAcceptorState(s, a) && InvProposerState(g, s, a) && InvTallies(s, a) && InvPromises(s)
    ensures InvAcceptorState(s', a) && InvProposerState(g, s', a) && InvTallies(s', a)
  {
    var out := Envelopes(g, e.dst, eff.send);
    KeepAcceptorState(g, s, s', e.dst, out, a);
    KeepTallies(s, s', e.dst, out, a);
    if a == e.dst {
      PromiseKeepsProposer(g, s, s', e, eff);
    } else {
      KeepProposerState(g, s, s', e.dst, out, a);
    }
  }

  lemma PromiseKeeps(g: Group, s: System, s': System, e: Envelope, eff: Effect)
    requires Inv(g, s) && Delivers(g, s, s', e, eff) && e.msg.Promise?
    ensures Inv(g, s')
  {
    var out := Envelopes(g, e.dst, eff.send);
    PromiseIsWellSent(g, s, s', e, eff);
    PromiseKeepsAccepts(g, s, s', e, eff);
    PromiseKeepsStarts(g, s, s', e, eff);
    forall a | 0 <= a < g.n
      ensures InvAcceptorState(s', a) && InvProposerState(g, s', a) && InvTallies(s', a)
    {
      PromiseKeepsNodes(g, s, s', e, eff, a);
    }
    StartKeeps(g, s, s', e.dst, out);
  }

  lemma StartKeeps(g: Group, s: System, s': System, p: nat, out: set<Envelope>)
    requires Inv(g, s) && Moves(s, s', p, out) && WellSent(g, s, p, out)
    requires forall f :: f in out ==> !f.msg.Promise? && !f.msg.Learn?
    requires s'.outputs == s.outputs
    requires InvAccepts(g, s') && InvStarts(g, s')
    requires forall a :: 0 <= a < g.n ==> InvAcceptorState(s', a) && InvProposerState(g, s', a) && InvTallies(s', a)
    ensures Inv(g, s')
  {
    KeepShape(g, s, s', p, out);
    KeepPromises(g, s, s', p, out);
    KeepOutputs(g, s, s');
  }

  // Receiving an Accept message.

  lemma AcceptIsWellSent(g: Group, s: System, s': System, e: Envelope, eff: Effect)
    requires Delivers(g, s, s', e, eff) && e.msg.Accept?
    requires InvShape(g, s) && InvAccepts(g, s)
    ensures WellSent(g, s, e.dst, Envelopes(g, e.dst, eff.send))
    ensures forall r: nat, v :: Envelope(e.dst, e.dst, Learn(r, v)) in Envelopes(g, e.dst, eff.send) ==>
      !Accepted(s, e.dst, r, v)
  {
    forall f | f in Envelopes(g, e.dst, eff.send)
      ensures f !in s.sent
    {
      assert !Accepted(s, e.dst, f.msg.vrnd, f.msg.vval);
    }
  }

  lemma AcceptKeepsAcceptor(g: Group, s: System, s': System, e: Envelope, eff: Effect)
    requires Delivers(g, s, s', e, eff) && e.msg.Accept? && e.msg.vrnd > 0
    requires InvAcceptorState(s, e.dst) && InvPromises(s)
    ensures InvAcceptorState(s', e.dst) && InvPromises(s')
  {
    Sent(s, s', e.dst, Envelopes(g, e.dst, eff.send));
  }

  lemma OneAcceptEach(g: Group, s: System, e: Envelope, f: Envelope)
    requires Inv(g, s) && e in s.sent && f in s.sent && e.msg.Accept? && f.msg.Accept?
    requires e.dst == f.dst && e.msg.vrnd == f.msg.vrnd
    ensures e == f
  {
    OneValuePerRound(g, s, e.src, f.src, e.msg.vrnd, e.msg.vval, f.msg.vval);
  }

  lemma AcceptKeepsAccepts(g: Group, s: System, s': System, e: Envelope, eff: Effect)
    requires Inv(g, s) && Delivers(g, s, s', e, eff) && e.msg.Accept?
    ensures InvAccepts(g, s')
  {
    var out := Envelopes(g, e.dst, eff.send);
    Sent(s, s', e.dst, out);
    assert Started(s, e.src, e.msg.vrnd, e.msg.vval);
    assert Started(s', e.src, e.msg.vrnd, e.msg.vval);
    forall a: nat, r: nat, v | Accepted(s', a, r, v)
      ensures Asked(g, s', r, v)
    {
      if Accepted(s, a, r, v) {
        StillAsked(g, s, s', a, r, v);
      }
    }
    forall f, v | f in s'.net && f.msg.Accept?
      ensures !Accepted(s', f.dst, f.msg.vrnd, v)
    {
      if f.dst == e.dst && f.msg.vrnd == e.msg.vrnd {
        OneAcceptEach(g, s, e, f);
      }
    }
  }

  /** Round 0 is never accepted. */
  lemma StartedIsPositive(g: Group, s: System, p: nat, r: nat, v: Entry)
    requires Inv(g, s) && Started(s, p, r, v)
    ensures p < g.n && r > 0
  {
    assert Envelope(p, p, Accept(r, v)) in s.sent;
    assert InvProposerState(g, s, p);
    var ps := s.nodes[p].promises[r];
    assert Backed(s, p, r, ps) && |ps| > 0;
    assert Promises(s, ps[0].from, p, r, ps[0].vrnd, ps[0].vval);
    assert InvAcceptorState(s, ps[0].from);
  }

  lemma AcceptKeeps(g: Group, s: System, s': System, e: Envelope, eff: Effect)
    requires Inv(g, s) && Delivers(g, s, s', e, eff) && e.msg.Accept?
    ensures Inv(g, s')
  {
    var out := Envelopes(g, e.dst, eff.send);
    AcceptIsWellSent(g, s, s', e, eff);
    StartedIsPositive(g, s, e.src, e.msg.vrnd, e.msg.vval);
    AcceptKeepsAcceptor(g, s, s', e, eff);
    AcceptKeepsAccepts(g, s, s', e, eff);
    KeepShape(g, s, s', e.dst, out);
    KeepStarts(g, s, s', e.dst, out);
    KeepOutputs(g, s, s');
    forall a | 0 <= a < g.n
      ensures InvAcceptorState(s', a) && InvProposerState(g, s', a) && InvTallies(s', a)
    {
      if a != e.dst {
        KeepAcceptorState(g, s, s', e.dst, out, a);
      }
      KeepProposerState(g, s, s', e.dst, out, a);
      KeepTallies(s, s', e.dst, out, a);
    }
  }

  // Receiving a Learn message.

  /** All learn messages of one round carry one value. */
  lemma OneAcceptedValue(g: Group, s: System, a: nat, b: nat, r: nat, v: Entry, w: Entry)
    requires Inv(g, s) && Accepted(s, a, r, v) && Accepted(s, b, r, w)
    ensures v == w
  {
    var p := WhoAsked(g, s, a, r, v);
    var q := WhoAsked(g, s, b, r, w);
    OneValuePerRound(g, s, p, q, r, v, w);
  }

  lemma LearnCounts(g: Group, s: System, s': System, e: Envelope, eff: Effect)
    requires Delivers(g, s, s', e, eff) && e.msg.Learn?
    requires Accepted(s, e.src, e.msg.vrnd, e.msg.vval) && !s.nodes[e.dst].learned
    requires e.msg.vrnd in s.nodes[e.dst].tallies ==>
      && Counted(s, e.dst, e.msg.vrnd, s.nodes[e.dst].tallies[e.msg.vrnd])
      && s.nodes[e.dst].tallies[e.msg.vrnd].vval == e.msg.vval
    ensures e.msg.vrnd in s'.nodes[e.dst].tallies
    ensures Counted(s', e.dst, e.msg.vrnd, s'.nodes[e.dst].tallies[e.msg.vrnd])
  {
    var l, r := e.dst, e.msg.vrnd;
    Sent(s, s', l, {});
    assert Accepted(s', e.src, r, e.msg.vval);
    assert e == Envelope(e.src, l, Learn(r, e.msg.vval));
    if r in s.nodes[l].tallies {
      CountedStays(s, s', l, {}, l, r, s.nodes[l].tallies[r]);
    }
  }

  lemma LearnOutput(g: Group, s: System, s': System, e: Envelope, eff: Effect)
    requires Delivers(g, s, s', e, eff) && e.msg.Learn? && eff.wrote.Some?
    requires e.msg.vrnd in s'.nodes[e.dst].tallies
    requires Counted(s', e.dst, e.msg.vrnd, s'.nodes[e.dst].tallies[e.msg.vrnd])
    requires InvShape(g, s')
    ensures Chosen(g, s', eff.wrote.value)
  {
    var r := e.msg.vrnd;
    var tally := s'.nodes[e.dst].tallies[r];
    var voters := DistinctSize(tally.from);
    forall a | a in voters
      ensures a in Acceptors(g, s', r, tally.vval)
    {
      var i :| 0 <= i < |tally.from| && tally.from[i] == a;
      assert Accepted(s', tally.from[i], r, tally.vval);
      assert Envelope(a, a, Learn(r, tally.vval)) in s'.sent;
    }
    SubsetSize(voters, Acceptors(g, s', r, tally.vval));
    assert ChosenIn(g, s', r, tally.vval);
  }

  lemma LearnKeepsTallies(g: Group, s: System, s': System, e: Envelope, eff: Effect)
    requires Delivers(g, s, s', e, eff) && e.msg.Learn? && InvTallies(s, e.dst)
    requires !s.nodes[e.dst].learned ==>
      && e.msg.vrnd in s'.nodes[e.dst].tallies
      && Counted(s', e.dst, e.msg.vrnd, s'.nodes[e.dst].tallies[e.msg.vrnd])
    ensures InvTallies(s', e.dst)
  {
    forall k | k in s'.nodes[e.dst].tallies
      ensures Counted(s', e.dst, k, s'.nodes[e.dst].tallies[k])
    {
      if s.nodes[e.dst].learned || k != e.msg.vrnd {
        CountedStays(s, s', e.dst, {}, e.dst, k, s.nodes[e.dst].tallies[k]);
      }
    }
  }

  lemma LearnKeepsOutputs(g: Group, s: System, s': System, e: Envelope, eff: Effect)
    requires Delivers(g, s, s', e, eff) && e.msg.Learn?
    requires InvOutputs(g, s) && InvShape(g, s') && InvTallies(s', e.dst)
    ensures InvOutputs(g, s')
  {
    if eff.wrote.Some? {
      LearnOutput(g, s, s', e, eff);
    }
    forall o | o in s'.outputs
      ensures Chosen(g, s', o.value)
    {
      if o in s.outputs {
        ChosenStays(g, s, s', o.value);
      }
    }
  }

  lemma LearnAddsUp(g: Group, s: System, s': System, e: Envelope, eff: Effect)
    requires Inv(g, s) && Delivers(g, s, s', e, eff) && e.msg.Learn?
    ensures InvTallies(s', e.dst)
  {
    var l, r := e.dst, e.msg.vrnd;
    assert InvTallies(s, l);
    assert Accepted(s, e.src, r, e.msg.vval);
    if !s.nodes[l].learned {
      if r in s.nodes[l].tallies {
        var a :| 0 <= a < |s.nodes| && Accepted(s, a, r, s.nodes[l].tallies[r].vval);
        OneAcceptedValue(g, s, a, e.src, r, s.nodes[l].tallies[r].vval, e.msg.vval);
      }
      LearnCounts(g, s, s', e, eff);
    }
    LearnKeepsTallies(g, s, s', e, eff);
  }

  // A learner that counts sends nothing and touches nothing else.
  ghost predicate OnlyCounts(s: System, s': System, l: nat) {
    && Moves(s, s', l, {})
    && l < |s.nodes|
    && s'.nodes[l] == s.nodes[l].(learned := s'.nodes[l].learned, tallies := s'.nodes[l].tallies)
  }

  lemma LearnOnlyCounts(g: Group, s: System, s': System, e: Envelope, eff: Effect)
    requires Delivers(g, s, s', e, eff) && e.msg.Learn?
    ensures OnlyCounts(s, s', e.dst)
  {
  }

  lemma CountKeepsNodes(g: Group, s: System, s': System, l: nat, a: nat)
    requires OnlyCounts(s, s', l) && a < |s.nodes|
    requires InvAcceptorState(s, a) && InvProposerState(g, s, a) && InvTallies(s, a)
    requires InvTallies(s', l)
    ensures InvAcceptorState(s', a) && InvProposerState(g, s', a) && InvTallies(s', a)
  {
    KeepAcceptorState(g, s, s', l, {}, a);
    KeepProposerState(g, s, s', l, {}, a);
    if a != l {
      KeepTallies(s, s', l, {}, a);
    }
  }

  lemma CountKeeps(g: Group, s: System, s': System, l: nat)
    requires Inv(g, s) && OnlyCounts(s, s', l)
    requires InvTallies(s', l) && InvOutputs(g, s')
    ensures Inv(g, s')
  {
    KeepShape(g, s, s', l, {});
    KeepPromises(g, s, s', l, {});
    KeepAccepts(g, s, s', l, {});
    KeepStarts(g, s, s', l, {});
    forall a | 0 <= a < g.n
      ensures InvAcceptorState(s', a) && InvProposerState(g, s', a) && InvTallies(s', a)
    {
      CountKeepsNodes(g, s, s', l, a);
    }
  }

  lemma LearnKeeps(g: Group, s: System, s': System, e: Envelope, eff: Effect)
    requires Inv(g, s) && Delivers(g, s, s', e, eff) && e.msg.Learn?
    ensures Inv(g, s')
  {
    LearnOnlyCounts(g, s, s', e, eff);
    LearnAddsUp(g, s, s', e, eff);
    KeepShape(g, s, s', e.dst, {});
    LearnKeepsOutputs(g, s, s', e, eff);
    CountKeeps(g, s, s', e.dst);
  }

  // ----- All runs -----

  lemma NextKeeps(g: Group, s: System, s': System)
    requires Inv(g, s) && Next(g, s, s')
    ensures Inv(g, s')
  {
    var step :| StepOf(g, s, s', step);
    match step
    case Propose(p, number, v) =>
      ProposeMoves(g, s, p, number, v);
      ProposeKeeps(g, s, s', p, number, v);
    case Lose(e) =>
      LoseKeeps(g, s, e);
    case Deliver(e) =>
      DeliverMoves(g, s, e);
      DeliverKeeps(g, s, s', e, Received(g, s, e));
  }

  lemma DeliverKeeps(g: Group, s: System, s': System, e: Envelope, eff: Effect)
    requires Inv(g, s) && Delivers(g, s, s', e, eff)
    ensures Inv(g, s')
  {
    match e.msg
    case Prepare(_) => PrepareKeeps(g, s, s', e, eff);
    case Promise(_, _, _) => PromiseKeeps(g, s, s', e, eff);
    case Accept(_, _) => AcceptKeeps(g, s, s', e, eff);
    case Learn(_, _) => LearnKeeps(g, s, s', e, eff);
  }

  lemma ReachableHolds(g: Group, s: System)
    requires g.threshold > 0 && 2 * g.threshold > g.n && Reachable(g, s)
    ensures Inv(g, s)
  {
    InitHolds(g);
    forall s, s' | Inv(g, s) && Next(g, s, s')
      ensures Inv(g, s')
    {
      NextKeeps(g, s, s');
    }
    LeadsKeeps(Steps(g), s => Inv(g, s), Init(g), s);
  }
}
