/** Sequences of states, each a step from the one before, for any notion of step. */
module Paths {
  type Relation<!S> = (S, S) -> bool

  ghost predicate StepAt<S>(step: Relation<S>, path: seq<S>, i: nat) {
    i + 1 < |path| && step(path[i], path[i + 1])
  }

  ghost predicate IsPath<S>(step: Relation<S>, path: seq<S>) {
    path != [] && forall i: nat {:trigger StepAt(step, path, i)} :: i + 1 < |path| ==> StepAt(step, path, i)
  }

  function Last<S>(path: seq<S>): S
    requires path != []
  {
    path[|path| - 1]
  }

  /** There are steps from o to s. */
  ghost predicate Leads<S(!new)>(step: Relation<S>, o: S, s: S) {
    exists path :: IsPath(step, path) && path[0] == o && Last(path) == s
  }

  lemma PathGoesOn<S>(step: Relation<S>, path: seq<S>, next: S)
    requires IsPath(step, path) && step(Last(path), next)
    ensures IsPath(step, path + [next]) && Last(path + [next]) == next && (path + [next])[0] == path[0]
  {
    var longer := path + [next];
    forall i: nat | i + 1 < |longer|
      ensures StepAt(step, longer, i)
    {
      assert i + 1 < |path| ==> StepAt(step, path, i);
    }
  }

  /** All but the last state of a path, and the last step. */
  lemma PathBefore<S>(step: Relation<S>, path: seq<S>)
    requires IsPath(step, path) && |path| > 1
    ensures IsPath(step, path[..|path| - 1]) && step(path[|path| - 2], Last(path))
  {
    var before := path[..|path| - 1];
    forall i: nat | i + 1 < |before|
      ensures StepAt(step, before, i)
    {
      assert StepAt(step, path, i);
    }
    assert StepAt(step, path, |path| - 2);
  }

  lemma LeadsToItself<S(!new)>(step: Relation<S>, o: S)
    ensures Leads(step, o, o)
  {
    assert IsPath(step, [o]) && Last([o]) == o;
  }

  lemma LeadsOn<S(!new)>(step: Relation<S>, o: S, s: S, s': S)
    requires Leads(step, o, s) && step(s, s')
    ensures Leads(step, o, s')
  {
    var path :| IsPath(step, path) && path[0] == o && Last(path) == s;
    PathGoesOn(step, path, s');
  }

  /** What holds of the first state and is kept by every step holds of the last one. */
  lemma {:induction false} PathKeeps<S(!new)>(step: Relation<S>, inv: S -> bool, path: seq<S>)
    requires IsPath(step, path) && inv(path[0])
    requires forall s, s' :: inv(s) && step(s, s') ==> inv(s')
    ensures inv(Last(path))
    decreases |path|
  {
    if |path| > 1 {
      PathBefore(step, path);
      PathKeeps(step, inv, path[..|path| - 1]);
    }
  }

  lemma LeadsKeeps<S(!new)>(step: Relation<S>, inv: S -> bool, o: S, s: S)
    requires Leads(step, o, s) && inv(o)
    requires forall s, s' :: inv(s) && step(s, s') ==> inv(s')
    ensures inv(s)
  {
    var path :| IsPath(step, path) && path[0] == o && Last(path) == s;
    PathKeeps(step, inv, path);
  }

  /** Steps of one kind are steps of another, if each of them is. */
  lemma PathWidens<S(!new)>(step: Relation<S>, wider: Relation<S>, path: seq<S>)
    requires IsPath(step, path)
    requires forall s, s' :: step(s, s') ==> wider(s, s')
    ensures IsPath(wider, path)
  {
    forall i: nat | i + 1 < |path|
      ensures StepAt(wider, path, i)
    {
      assert StepAt(step, path, i);
    }
  }

  lemma LeadsWidens<S(!new)>(step: Relation<S>, wider: Relation<S>, o: S, s: S)
    requires Leads(step, o, s)
    requires forall s, s' :: step(s, s') ==> wider(s, s')
    ensures Leads(wider, o, s)
  {
    var path :| IsPath(step, path) && path[0] == o && Last(path) == s;
    PathWidens(step, wider, path);
  }

  lemma LeadsThrough<S(!new)>(step: Relation<S>, o: S, s: S, s': S)
    requires Leads(step, o, s) && Leads(step, s, s')
    ensures Leads(step, o, s')
  {
    LeadsKeeps(step, x => Leads(step, o, x), s, s') by {
      forall x, y | Leads(step, o, x) && step(x, y)
        ensures Leads(step, o, y)
      {
        LeadsOn(step, o, x, y);
      }
    }
  }
}
