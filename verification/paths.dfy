/** Finite paths of a step machine, for any `step` from a state and an action to the state after it, if there is one. */
module Paths {
  import opened Wrappers

  /** The steps can be taken one after the other from `s`, and lead to `t`. */
  ghost predicate Path<S, A>(step: (S, A) -> Option<S>, s: S, steps: seq<A>, t: S)
    decreases |steps|
  {
    if steps == [] then t == s
    else step(s, steps[0]).Some? && Path(step, step(s, steps[0]).value, steps[1..], t)
  }

  lemma One<S, A>(step: (S, A) -> Option<S>, s: S, a: A, t: S)
    requires step(s, a) == Some(t)
    ensures Path(step, s, [a], t)
  {
    assert [a][1..] == [] && Path(step, t, [], t);
  }

  lemma {:induction false} Further<S, A>(step: (S, A) -> Option<S>, s: S, a: seq<A>, t: S, b: seq<A>, u: S)
    requires Path(step, s, a, t) && Path(step, t, b, u)
    ensures Path(step, s, a + b, u)
    decreases |a|
  {
    if a == [] {
      assert a + b == b;
    } else {
      Further(step, step(s, a[0]).value, a[1..], t, b, u);
      assert (a + b)[0] == a[0] && (a + b)[1..] == a[1..] + b;
    }
  }

  lemma Three<S, A>(step: (S, A) -> Option<S>, s: S, steps: seq<A>, s1: S, s2: S, t: S)
    requires |steps| == 3
    requires step(s, steps[0]) == Some(s1) && step(s1, steps[1]) == Some(s2) && step(s2, steps[2]) == Some(t)
    ensures Path(step, s, steps, t)
  {
    One(step, s, steps[0], s1);
    One(step, s1, steps[1], s2);
    One(step, s2, steps[2], t);
    Further(step, s1, [steps[1]], s2, [steps[2]], t);
    Further(step, s, [steps[0]], s1, [steps[1]] + [steps[2]], t);
    assert [steps[0]] + ([steps[1]] + [steps[2]]) == steps;
  }

  /** A path has one end. */
  lemma {:induction false} Unique<S, A>(step: (S, A) -> Option<S>, s: S, steps: seq<A>, t: S, u: S)
    requires Path(step, s, steps, t) && Path(step, s, steps, u)
    ensures t == u
    decreases |steps|
  {
    if steps != [] {
      Unique(step, step(s, steps[0]).value, steps[1..], t, u);
    }
  }

  /** The states a path goes through. */
  lemma {:induction false} StatesAlong<S, A>(step: (S, A) -> Option<S>, s: S, steps: seq<A>, t: S)
    returns (states: seq<S>)
    requires Path(step, s, steps, t)
    ensures |states| == |steps| + 1 && states[0] == s && states[|steps|] == t
    ensures forall n :: 0 <= n < |steps| ==> step(states[n], steps[n]) == Some(states[n + 1])
    decreases |steps|
  {
    if steps == [] {
      states := [s];
    } else {
      var rest := StatesAlong(step, step(s, steps[0]).value, steps[1..], t);
      states := [s] + rest;
      forall n | 0 <= n < |steps|
        ensures step(states[n], steps[n]) == Some(states[n + 1])
      {
        assert n > 0 ==> states[n] == rest[n - 1] && steps[n] == steps[1..][n - 1];
      }
    }
  }
}
