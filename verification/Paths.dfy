/** Steps that lead from one state of the system to another, and how they make up runs. */
module Paths {
  import opened Protocol

  /** The steps lead from `s` to `s'`. */
  ghost predicate Path(s: State, steps: seq<Step>, s': State)
    decreases |steps|
  {
    if |steps| == 0 then s == s' else Enabled(s, steps[0]) && Path(Apply(s, steps[0]), steps[1..], s')
  }

  lemma {:induction false} PathJoin(s: State, steps: seq<Step>, s': State, steps': seq<Step>, s'': State)
    requires Path(s, steps, s') && Path(s', steps', s'')
    ensures Path(s, steps + steps', s'')
    decreases |steps|
  {
    if |steps| == 0 {
      assert steps + steps' == steps';
    } else {
      SplitHead(steps, steps');
      PathJoin(Apply(s, steps[0]), steps[1..], s', steps', s'');
    }
  }

  lemma SplitHead(steps: seq<Step>, steps': seq<Step>)
    requires |steps| > 0
    ensures |steps + steps'| > 0 && (steps + steps')[0] == steps[0] && (steps + steps')[1..] == steps[1..] + steps'
  {
  }

  lemma PathOne(s: State, step: Step)
    requires Enabled(s, step)
    ensures Path(s, [step], Apply(s, step))
  {
    assert [step][1..] == [];
    assert Path(Apply(s, step), [], Apply(s, step));
  }

  lemma PathTwo(s: State, a: Step, s1: State, b: Step, s2: State)
    requires Enabled(s, a) && Apply(s, a) == s1 && Enabled(s1, b) && Apply(s1, b) == s2
    ensures Path(s, [a, b], s2)
  {
    PathOne(s, a);
    PathOne(s1, b);
    PathJoin(s, [a], s1, [b], s2);
    assert [a] + [b] == [a, b];
  }

  lemma PathThree(s: State, a: Step, s1: State, b: Step, s2: State, c: Step, s3: State)
    requires Enabled(s, a) && Apply(s, a) == s1 && Enabled(s1, b) && Apply(s1, b) == s2 && Enabled(s2, c) && Apply(s2, c) == s3
    ensures Path(s, [a, b, c], s3)
  {
    PathTwo(s, a, s1, b, s2);
    PathOne(s2, c);
    PathJoin(s, [a, b], s2, [c], s3);
    assert [a, b] + [c] == [a, b, c];
  }

  lemma {:induction false} PathStates(s: State, steps: seq<Step>, s': State) returns (states: seq<State>)
    requires Path(s, steps, s')
    ensures |states| == |steps| + 1 && states[0] == s && states[|steps|] == s'
    ensures forall k :: 0 <= k < |steps| ==> Enabled(states[k], steps[k]) && states[k + 1] == Apply(states[k], steps[k])
    decreases |steps|
  {
    if |steps| == 0 {
      states := [s];
    } else {
      var rest := PathStates(Apply(s, steps[0]), steps[1..], s');
      states := [s] + rest;
      forall k | 0 <= k < |steps|
        ensures Enabled(states[k], steps[k]) && states[k + 1] == Apply(states[k], steps[k])
      {
        if k > 0 {
          assert steps[k] == steps[1..][k - 1] && states[k] == rest[k - 1] && states[k + 1] == rest[k];
        }
      }
    }
  }
}
