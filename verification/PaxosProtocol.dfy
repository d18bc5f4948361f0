/**
 One Paxos instance as a step system: n nodes, each of them proposer, acceptor and learner, and
 the bag of messages in flight. A step proposes a value, under any number or under one that the
 program can draw, as the group says; or it delivers one message of the bag, or loses one. Delivery
 takes the message out of the bag, so messages may be reordered and lost but are not duplicated by
 the network.
*/
module PaxosProtocol {
  import opened Paths
  import opened Entries
  import opened PaxosNode

  datatype Group = Group(rule: Rule, numbers: Numbers, n: nat, threshold: nat)

  datatype Envelope = Envelope(src: nat, dst: nat, msg: Msg)

  datatype Output = Output(node: nat, value: Entry)

  // `net` is the bag. `sent`, `proposed` and `outputs` record everything ever sent, everything
  // ever passed to propose, and every value a node ever wrote to its log for this instance.
  datatype System = System(
    nodes: seq<Node>,
    net: multiset<Envelope>,
    sent: set<Envelope>,
    proposed: set<Entry>,
    outputs: set<Output>)

  function Init(g: Group): System {
    System(seq(g.n, _ => INIT_NODE), multiset{}, {}, {}, {})
  }

  ghost function Fanout(n: nat, src: nat, msg: Msg): set<Envelope> {
    set d | 0 <= d < n :: Envelope(src, d, msg)
  }

  ghost function Envelopes(g: Group, src: nat, send: Send): set<Envelope> {
    match send
    case Silent => {}
    case ToAll(msg) => Fanout(g.n, src, msg)
    case To(dst, msg) => {Envelope(src, dst, msg)}
  }

  /** Node p has taken the effect e: its state is replaced, its messages enter the bag. */
  ghost function Apply(g: Group, s: System, p: nat, e: Effect): System
    requires p < |s.nodes|
  {
    System(
      s.nodes[p := e.node],
      s.net + multiset(Envelopes(g, p, e.send)),
      s.sent + Envelopes(g, p, e.send),
      s.proposed,
      s.outputs + if e.wrote.Some? then {Output(p, e.wrote.value)} else {})
  }

  ghost function Received(g: Group, s: System, e: Envelope): Effect
    requires e.dst < |s.nodes|
  {
    OnMessage(g.rule, g.threshold, s.nodes[e.dst], e.src, e.msg)
  }

  ghost function AfterPropose(g: Group, s: System, p: nat, number: nat, v: Entry): System
    requires p < |s.nodes|
  {
    Apply(g, s.(proposed := s.proposed + {v}), p, OnPropose(s.nodes[p], number, v))
  }

  ghost function AfterDeliver(g: Group, s: System, e: Envelope): System
    requires e.dst < |s.nodes|
  {
    Apply(g, s.(net := s.net - multiset{e}), e.dst, Received(g, s, e))
  }

  datatype Step = Propose(node: nat, number: nat, value: Entry) | Deliver(env: Envelope) | Lose(lost: Envelope)

  ghost predicate Allowed(g: Group, node: Node, number: nat) {
    g.numbers.DrawnNumber? ==> Drawn(node.latest, number)
  }

  ghost predicate StepOf(g: Group, s: System, s': System, step: Step) {
    match step
    case Propose(p, number, v) =>
      p < |s.nodes| && Allowed(g, s.nodes[p], number) && s' == AfterPropose(g, s, p, number, v)
    case Deliver(e) => e in s.net && e.dst < |s.nodes| && s' == AfterDeliver(g, s, e)
    case Lose(e) => e in s.net && s' == s.(net := s.net - multiset{e})
  }

  ghost predicate Next(g: Group, s: System, s': System) {
    exists step :: StepOf(g, s, s', step)
  }

  ghost function Steps(g: Group): Relation<System> {
    (s, s') => Next(g, s, s')
  }

  ghost predicate Reachable(g: Group, s: System) {
    Leads(Steps(g), Init(g), s)
  }

  // ----- What the messages say -----

  // Every broadcast reaches the sender's own address too, so the copy that a node sends itself
  // stands for the whole broadcast.

  ghost predicate Accepted(s: System, a: nat, r: nat, v: Entry) {
    Envelope(a, a, Learn(r, v)) in s.sent
  }

  ghost predicate Started(s: System, p: nat, r: nat, v: Entry) {
    Envelope(p, p, Accept(r, v)) in s.sent
  }

  ghost predicate Asked(g: Group, s: System, r: nat, v: Entry) {
    exists p :: 0 <= p < g.n && Started(s, p, r, v)
  }

  ghost predicate Promises(s: System, a: nat, p: nat, r: nat, vr: nat, v: Entry) {
    Envelope(a, p, Promise(r, vr, v)) in s.sent
  }

  ghost function Acceptors(g: Group, s: System, r: nat, v: Entry): set<nat> {
    set a | 0 <= a < g.n && Accepted(s, a, r, v)
  }

  ghost predicate ChosenIn(g: Group, s: System, r: nat, v: Entry) {
    |Acceptors(g, s, r, v)| >= g.threshold
  }

  ghost predicate Chosen(g: Group, s: System, v: Entry) {
    exists r :: ChosenIn(g, s, r, v)
  }

  // ----- The inductive invariant -----

  ghost predicate InvShape(g: Group, s: System) {
    && |s.nodes| == g.n
    && g.threshold > 0
    && (forall e :: e in s.sent ==> e.src < g.n && e.dst < g.n)
    && (forall e :: e in s.net ==> e in s.sent)
    && (forall e :: e in s.net && !e.msg.Prepare? ==> s.net[e] == 1)
    && (forall e :: e in s.sent && e.msg.Learn? ==> Accepted(s, e.src, e.msg.vrnd, e.msg.vval))
    && (forall e :: e in s.sent && e.msg.Accept? ==> Started(s, e.src, e.msg.vrnd, e.msg.vval))
  }

  ghost predicate InvAcceptorState(s: System, a: nat)
    requires a < |s.nodes|
  {
    && s.nodes[a].vrnd <= s.nodes[a].rnd
    && (s.nodes[a].vrnd > 0 ==> Accepted(s, a, s.nodes[a].vrnd, s.nodes[a].vval))
    && (forall p: nat, r: nat, vr: nat, v :: Promises(s, a, p, r, vr, v) ==>
          vr < r <= s.nodes[a].rnd && (vr > 0 ==> Accepted(s, a, vr, v)))
    && (forall r: nat, v :: Accepted(s, a, r, v) ==> 0 < r <= s.nodes[a].vrnd)
  }

  // An acceptor promises a number once, to one node, and never accepts between the round it
  // reports and the round it promises.
  ghost predicate InvPromises(s: System) {
    && (forall a: nat, p: nat, r: nat, vr: nat, v, p': nat, vr': nat, v' ::
          Promises(s, a, p, r, vr, v) && Promises(s, a, p', r, vr', v') ==>
          p == p' && vr == vr' && v == v')
    && (forall a: nat, p: nat, r: nat, vr: nat, v, r': nat, v' ::
          Promises(s, a, p, r, vr, v) && Accepted(s, a, r', v') && r' < r ==>
          r' <= vr)
  }

  // A node only accepts what someone asked it to accept, at most once a round.
  ghost predicate InvAccepts(g: Group, s: System) {
    && (forall a: nat, r: nat, v {:trigger Accepted(s, a, r, v), Asked(g, s, r, v)} ::
          Accepted(s, a, r, v) ==> Asked(g, s, r, v))
    && (forall e, v :: e in s.net && e.msg.Accept? ==> !Accepted(s, e.dst, e.msg.vrnd, v))
  }

  ghost predicate Backed(s: System, p: nat, r: nat, promises: seq<Promised>) {
    && (forall i, j :: 0 <= i < j < |promises| ==> promises[i].from != promises[j].from)
    && (forall i :: 0 <= i < |promises| ==>
          && Promises(s, promises[i].from, p, r, promises[i].vrnd, promises[i].vval)
          && Envelope(promises[i].from, p, Promise(r, promises[i].vrnd, promises[i].vval)) !in s.net)
  }

  ghost predicate InvProposerState(g: Group, s: System, p: nat)
    requires p < |s.nodes|
  {
    && s.nodes[p].promises.Keys == s.nodes[p].proposal.Keys
    && (forall r :: r in s.nodes[p].promises ==>
          && s.nodes[p].proposal[r] in s.proposed
          && |s.nodes[p].promises[r]| <= g.threshold
          && Backed(s, p, r, s.nodes[p].promises[r]))
    && (forall d: nat, r: nat :: Envelope(p, d, Prepare(r)) in s.sent ==> r in s.nodes[p].promises)
    && (forall a: nat, r: nat, vr: nat, v :: Promises(s, a, p, r, vr, v) ==> r in s.nodes[p].promises)
  }

  // An Accept message carries what the rule makes of the proposer's quorum of promises.
  ghost predicate InvStarts(g: Group, s: System) {
    forall p: nat, r: nat, v :: Started(s, p, r, v) && p < |s.nodes| ==>
      && v in s.proposed
      && r in s.nodes[p].promises
      && r in s.nodes[p].proposal
      && |s.nodes[p].promises[r]| == g.threshold
      && v == Choose(g.rule, s.nodes[p].proposal[r], s.nodes[p].promises[r])
  }

  ghost predicate Counted(s: System, l: nat, r: nat, tally: Tally) {
    && (forall i, j :: 0 <= i < j < |tally.from| ==> tally.from[i] != tally.from[j])
    && (forall i :: 0 <= i < |tally.from| ==>
          && Accepted(s, tally.from[i], r, tally.vval)
          && Envelope(tally.from[i], l, Learn(r, tally.vval)) !in s.net)
    && exists a :: 0 <= a < |s.nodes| && Accepted(s, a, r, tally.vval)
  }

  ghost predicate InvTallies(s: System, l: nat)
    requires l < |s.nodes|
  {
    forall r :: r in s.nodes[l].tallies ==> Counted(s, l, r, s.nodes[l].tallies[r])
  }

  ghost predicate InvOutputs(g: Group, s: System) {
    forall o :: o in s.outputs ==> Chosen(g, s, o.value)
  }

  ghost predicate Inv(g: Group, s: System) {
    && 2 * g.threshold > g.n
    && InvShape(g, s)
    && (forall a :: 0 <= a < g.n ==> InvAcceptorState(s, a))
    && InvPromises(s)
    && InvAccepts(g, s)
    && (forall p :: 0 <= p < g.n ==> InvProposerState(g, s, p))
    && InvStarts(g, s)
    && (forall l :: 0 <= l < g.n ==> InvTallies(s, l))
    && InvOutputs(g, s)
  }
}
