/**
 Where agreement fails. For every group whose threshold does not make the choice rule sound there
 is a run in which two nodes write different values for one instance.
*/
module PaxosDisagreement {
  import opened Paths
  import opened Entries
  import opened PaxosNode
  import opened PaxosProtocol
  import opened PaxosAgreement
  import opened PaxosRuns

  const VALUE_A := ReconfigFinished
  const VALUE_B := Unset

  /** What a round chooses when its acceptors have accepted nothing. */
  lemma FreshValue(g: Group, s: System, p: nat, r: nat, v: Entry, order: seq<nat>)
    requires p < |s.nodes| && r !in s.nodes[p].promises && r !in s.nodes[p].proposal
    requires forall i :: 0 <= i < |order| ==> order[i] < |s.nodes| && s.nodes[order[i]].vrnd == 0
    ensures Held(s.nodes[p], r) == [] && RoundValue(g, s, p, r, v, order) == v
    ensures Choose(g.rule, v, Reports(s, order)) == v
  {
    assert Held(s.nodes[p], r) + Reports(s, order) == Reports(s, order);
    SilentReports(g.rule, v, Reports(s, order));
  }

  /** A round in which nobody has accepted or promised anything before gets the proposer's own value through. */
  lemma FirstRound(g: Group, s: System, p: nat, r: nat, v: Entry, order: seq<nat>, l: nat) returns (s': System)
    requires Reachable(g, s) && |s.nodes| == g.n && p < g.n && Quorum(g, order) && |order| == g.threshold > 0
    requires 0 < r && Fresh(s.nodes[p], r - 1) && Drawn(s.nodes[p].latest, r)
    requires forall i :: 0 <= i < |order| ==> s.nodes[order[i]].rnd < r && s.nodes[order[i]].vrnd == 0
    requires l < g.n && Fresh(s.nodes[l], r)
    ensures Reachable(g, s') && Output(l, v) in s'.outputs && s.outputs <= s'.outputs
    ensures RoundDone(g, s, s', p, r, order, order, v)
    ensures forall b :: 0 <= b < g.n && b != l ==> SameLearner(s.nodes[b], s'.nodes[b])
  {
    FreshValue(g, s, p, r, v, order);
    s' := Learned(g, s, p, r, v, order, l);
  }

  /** A round in which `order` promises and accepts and l learns, as a run. */
  lemma Learned(g: Group, s: System, p: nat, r: nat, v: Entry, order: seq<nat>, l: nat) returns (s': System)
    requires Reachable(g, s) && |s.nodes| == g.n && p < g.n && Quorum(g, order) && |order| == g.threshold > 0
    requires r !in s.nodes[p].promises && r !in s.nodes[p].proposal && Drawn(s.nodes[p].latest, r)
    requires forall a :: a in order && a < g.n ==> s.nodes[a].rnd < r
    requires l < g.n && !s.nodes[l].learned && r !in s.nodes[l].tallies
    ensures Reachable(g, s') && s.outputs <= s'.outputs
    ensures Output(l, Choose(g.rule, v, Reports(s, order))) in s'.outputs
    ensures RoundDone(g, s, s', p, r, order, order, Choose(g.rule, v, Reports(s, order)))
    ensures forall b :: 0 <= b < g.n && b != l ==> SameLearner(s.nodes[b], s'.nodes[b])
  {
    assert Held(s.nodes[p], r) + Reports(s, order) == Reports(s, order);
    var m;
    m, s' := LearnedRound(g, s, p, r, v, order, order, l);
    SoloLeads(g, p, v, s, m);
    WriteIsNext(g, m, s', l, RoundValue(g, s, p, r, v, order));
    LeadsThrough(Steps(g), Init(g), s, m);
    LeadsOn(Steps(g), Init(g), m, s');
  }

  // A node that has learned nothing and proposed nothing beyond round r.
  ghost predicate Fresh(x: Node, r: nat) {
    !x.learned && x.tallies == map[] && forall k :: k > r ==> k !in x.promises && k !in x.proposal
  }

  /** The first half of a group settles on A while the second half hears nothing. */
  lemma HalfSettles(g: Group) returns (s: System)
    requires 0 < g.threshold && 2 * g.threshold <= g.n
    ensures Reachable(g, s) && |s.nodes| == g.n && Output(0, VALUE_A) in s.outputs
    ensures forall a :: g.threshold <= a < g.n ==> s.nodes[a].rnd == 0 && s.nodes[a].vrnd == 0
    ensures Fresh(s.nodes[g.threshold], 1) && s.nodes[g.threshold].latest == 0
  {
    LeadsToItself(Steps(g), Init(g));
    var first := Interval(0, g.threshold);
    InInterval(0, g.threshold);
    var s0 := Init(g);
    DrawnNear(0, 1);
    s := FirstRound(g, s0, 0, 1, VALUE_A, first, 0);
    assert SameLearner(s0.nodes[g.threshold], s.nodes[g.threshold]);
  }

  /** Two quorums that do not meet settle on different values. */
  lemma DisjointQuorumsDisagree(g: Group) returns (s: System)
    requires 0 < g.threshold && 2 * g.threshold <= g.n
    ensures Reachable(g, s) && !Agree(s)
  {
    var q := g.threshold;
    var second := Interval(q, q);
    InInterval(q, q);
    var m := HalfSettles(g);
    DrawnNear(0, 2);
    s := FirstRound(g, m, q, 2, VALUE_B, second, q);
    assert Output(0, VALUE_A) in s.outputs && Output(q, VALUE_B) in s.outputs;
  }

  /** Node 0 alone accepts A in round 1. */
  lemma OneAccepts(g: Group) returns (s: System)
    requires 2 * g.threshold > g.n > g.threshold
    ensures Reachable(g, s) && |s.nodes| == g.n
    ensures forall a :: 0 <= a < g.n ==> s.nodes[a].rnd < 2
    ensures Fresh(s.nodes[0], 1) && s.nodes[0].latest == 1 && Fresh(s.nodes[1], 1) && s.nodes[1].latest == 0
    ensures s.nodes[0].vrnd == 1 && s.nodes[0].vval == VALUE_A
    ensures forall a :: 0 < a < g.n ==> s.nodes[a].vrnd == 0
  {
    LeadsToItself(Steps(g), Init(g));
    var first := Interval(0, g.threshold);
    InInterval(0, g.threshold);
    var s0 := Init(g);
    FreshValue(g, s0, 0, 1, VALUE_A, first);
    DrawnNear(0, 1);
    assert CanAccept(g, s0, 1, first, [0]);
    s := Round(g, s0, 0, 1, VALUE_A, first, [0]);
    SoloLeads(g, 0, VALUE_A, s0, s);
    assert 0 in [0] && SameLearner(s0.nodes[0], s.nodes[0]) && SameLearner(s0.nodes[1], s.nodes[1]);
  }

  /** Then a quorum without node 0 accepts B in round 2, and node 1 learns it. */
  lemma LeftBehind(g: Group) returns (s: System)
    requires 2 * g.threshold > g.n > g.threshold
    ensures Reachable(g, s) && |s.nodes| == g.n && Output(1, VALUE_B) in s.outputs
    ensures forall a :: 0 <= a < g.n ==> s.nodes[a].rnd < 3
    ensures s.nodes[0].vrnd == 1 && s.nodes[0].vval == VALUE_A && Fresh(s.nodes[0], 2)
    ensures s.nodes[0].latest == 1
  {
    var m := OneAccepts(g);
    var second := Interval(1, g.threshold);
    InInterval(1, g.threshold);
    DrawnNear(0, 2);
    s := FirstRound(g, m, 1, 2, VALUE_B, second, 1);
    assert SameLearner(m.nodes[0], s.nodes[0]);
  }

  /** In round 3 the promise of node 0 arrives last, so the loop as written proposes A again. */
  lemma LiteralRuleDisagrees(g: Group) returns (s: System)
    requires g.rule.Literal? && 2 * g.threshold > g.n > g.threshold
    ensures Reachable(g, s) && !Agree(s)
  {
    var q := g.threshold;
    var third := Interval(1, q - 1) + [0];
    InInterval(1, q - 1);
    var m := LeftBehind(g);
    var reports := Reports(m, third);
    assert reports[|reports| - 1] == Promised(0, 1, VALUE_A);
    DrawnNear(1, 2);
    s := Learned(g, m, 0, 3, VALUE_A, third, 0);
    assert Output(0, VALUE_A) in s.outputs && Output(1, VALUE_B) in s.outputs;
  }

  // ----- When a group agrees -----

  /**
   Every run of a group agrees exactly when the group is sound. It makes no difference whether its
   proposers use any numbers at all or only those that the program draws.
  */
  lemma AgreementIffSound(g: Group)
    requires g.threshold > 0
    ensures (forall s :: Reachable(g, s) ==> Agree(s)) <==> Sound(g)
  {
    if Sound(g) {
      forall s | Reachable(g, s)
        ensures Agree(s)
      {
        Agreement(g, s);
      }
    } else if 2 * g.threshold <= g.n {
      var s := DisjointQuorumsDisagree(g);
    } else {
      var s := LiteralRuleDisagrees(g);
    }
  }

  // Every run of a group of this size agrees, when the threshold is the computed one.
  ghost predicate AlwaysAgrees(rule: Rule, numbers: Numbers, size: nat) {
    forall s :: Reachable(Group(rule, numbers, size, MajorityThreshold(size)), s) ==> Agree(s)
  }

  /**
   With the threshold the program computes from its number of servers, the documented rule always
   agrees, and the loop as written agrees for groups of at most two servers and for no larger one.
  */
  lemma MajorityAgreement(numbers: Numbers, size: nat)
    ensures AlwaysAgrees(Documented, numbers, size)
    ensures AlwaysAgrees(Literal, numbers, size) <==> size <= 2
  {
    AgreementIffSound(Group(Documented, numbers, size, MajorityThreshold(size)));
    AgreementIffSound(Group(Literal, numbers, size, MajorityThreshold(size)));
  }

  /**
   No smaller threshold would do: under the documented rule every threshold below the computed one has
   a run that disagrees, whichever numbers are used, and the computed one has none.
  */
  lemma MajorityIsLeast(numbers: Numbers, size: nat, threshold: nat)
    requires 0 < threshold
    ensures threshold < MajorityThreshold(size) ==>
      exists s :: Reachable(Group(Documented, numbers, size, threshold), s) && !Agree(s)
    ensures AlwaysAgrees(Documented, numbers, size)
    ensures size > 0 ==> MajorityThreshold(size) <= size
  {
    AgreementIffSound(Group(Documented, numbers, size, threshold));
    AgreementIffSound(Group(Documented, numbers, size, MajorityThreshold(size)));
  }
}
