/**
 Round-robin placement over whole runs: as long as the iteration order of the registry stays the
 same, the allocations of all uploads together place their chunks as successive selections do, so
 what Placement proves of selections holds of the running system.
 */
module Rounds {
  import opened Types
  import opened Placement
  import opened Protocol

  /** Whether the step before state `j` is an allocation, as a number. */
  function Given(steps: seq<Step>, j: nat): nat
    requires 0 < j <= |steps|
  {
    if steps[j - 1].Allocate? then 1 else 0
  }

  /** What the step before state `j` places. */
  function GivenBy(states: seq<State>, steps: seq<Step>, j: nat): seq<NodeId>
    requires 0 < j <= |steps| && |steps| < |states|
  {
    if steps[j - 1].Allocate? then NodesGiven(states[j], steps[j - 1].u) else []
  }

  /** The allocations among steps `i` to `j - 1`. */
  function Allocations(steps: seq<Step>, i: nat, j: nat): nat
    requires i <= j <= |steps|
    decreases j - i
  {
    if i == j then 0 else Allocations(steps, i, j - 1) + Given(steps, j)
  }

  /** The nodes of the chunk an allocation made, seen in the state after it. */
  function NodesGiven(s': State, u: nat): seq<NodeId> {
    if u < |s'.uploads| && |s'.uploads[u].infos| > 0 then LastInfo(s'.uploads[u]).nodeIds else []
  }

  /** Everything placed by steps `i` to `j - 1`, in the order of the allocations. */
  function PlacedBetween(states: seq<State>, steps: seq<Step>, i: nat, j: nat): seq<NodeId>
    requires i <= j <= |steps| && |steps| < |states|
    decreases j - i
  {
    if i == j then []
    else PlacedBetween(states, steps, i, j - 1) + GivenBy(states, steps, j)
  }

  /** Every allocation among steps `i` to `j - 1` sees the nodes in this order. */
  ghost predicate SameOrder(steps: seq<Step>, i: nat, j: nat, order: seq<NodeId>)
    requires i <= j <= |steps|
  {
    forall m :: i <= m < j && steps[m].Allocate? ==> steps[m].order == order
  }

  lemma AllocationSelects(s: State, u: nat, order: seq<NodeId>)
    requires Enabled(s, Allocate(u, order))
    ensures NodesGiven(Apply(s, Allocate(u, order)), u) == Select(order, StartOf(s.nodeIndex, |order|), REPLICATION_FACTOR)
    ensures Apply(s, Allocate(u, order)).nodeIndex == (s.nodeIndex + 1) % UINT32_SPAN
  {
  }

  lemma OthersLeaveIndex(s: State, step: Step)
    requires Enabled(s, step) && !step.Allocate?
    ensures Apply(s, step).nodeIndex == s.nodeIndex
  {
  }

  /** Step `m` counts if it is an allocation, and leaves the counter otherwise. */
  ghost predicate Counts(states: seq<State>, steps: seq<Step>, m: nat)
    requires m < |steps| && |steps| < |states|
  {
    states[m + 1].nodeIndex == (states[m].nodeIndex + Given(steps, m + 1)) % UINT32_SPAN
  }

  lemma AddToRemainder(x: nat, y: nat)
    ensures (x % UINT32_SPAN + y) % UINT32_SPAN == (x + y) % UINT32_SPAN
  {
  }

  lemma {:induction false} CountsAddUp(states: seq<State>, steps: seq<Step>, i: nat, j: nat)
    requires i <= j <= |steps| && |steps| < |states| && states[i].nodeIndex < UINT32_SPAN
    requires forall m :: i <= m < j ==> Counts(states, steps, m)
    ensures states[j].nodeIndex == (states[i].nodeIndex + Allocations(steps, i, j)) % UINT32_SPAN
    decreases j - i
  {
    if i < j {
      CountsAddUp(states, steps, i, j - 1);
      assert Counts(states, steps, j - 1);
      AddToRemainder(states[i].nodeIndex + Allocations(steps, i, j - 1), Given(steps, j));
    }
  }

  lemma StepCounts(states: seq<State>, steps: seq<Step>, m: nat)
    requires Run(states, steps) && m < |steps|
    ensures Counts(states, steps, m)
  {
    IndexInRange(states, steps, m);
    if steps[m].Allocate? {
      AllocationSelects(states[m], steps[m].u, steps[m].order);
    } else {
      OthersLeaveIndex(states[m], steps[m]);
    }
  }

  /** The counter counts the allocations. */
  lemma CounterCounts(states: seq<State>, steps: seq<Step>, i: nat, j: nat)
    requires Run(states, steps) && i <= j <= |steps|
    ensures states[j].nodeIndex == (states[i].nodeIndex + Allocations(steps, i, j)) % UINT32_SPAN
  {
    IndexInRange(states, steps, i);
    forall m | i <= m < j
      ensures Counts(states, steps, m)
    {
      StepCounts(states, steps, m);
    }
    CountsAddUp(states, steps, i, j);
  }

  // ---------------------------------------------------------------- successive selections

  /** The first `k` choices, one after the other. */
  function Chosen(choice: nat -> seq<NodeId>, k: nat): seq<NodeId> {
    if k == 0 then [] else Chosen(choice, k - 1) + choice(k - 1)
  }

  /** The choices are selections from `order`, from counter value `counter` on. */
  ghost predicate AreSelections(choice: nat -> seq<NodeId>, order: seq<NodeId>, counter: nat)
    requires order != []
  {
    forall x: nat :: choice(x) == Select(order, StartOf(counter + x, |order|), REPLICATION_FACTOR)
  }

  lemma {:induction false} ChosenIsPlaced(choice: nat -> seq<NodeId>, order: seq<NodeId>, counter: nat, k: nat)
    requires order != [] && AreSelections(choice, order, counter)
    ensures Chosen(choice, k) == Placed(order, counter, REPLICATION_FACTOR, k)
  {
    if k > 0 {
      ChosenIsPlaced(choice, order, counter, k - 1);
    }
  }

  /** Step `m`, if it is an allocation, makes the choice that the number of allocations before it says. */
  ghost predicate Follows(states: seq<State>, steps: seq<Step>, i: nat, m: nat, choice: nat -> seq<NodeId>)
    requires i <= m < |steps| && |steps| < |states|
  {
    steps[m].Allocate? ==> NodesGiven(states[m + 1], steps[m].u) == choice(Allocations(steps, i, m))
  }

  lemma {:induction false} ChoicesAddUp(states: seq<State>, steps: seq<Step>, i: nat, j: nat, choice: nat -> seq<NodeId>)
    requires i <= j <= |steps| && |steps| < |states|
    requires forall m :: i <= m < j ==> Follows(states, steps, i, m, choice)
    ensures PlacedBetween(states, steps, i, j) == Chosen(choice, Allocations(steps, i, j))
    decreases j - i
  {
    if i < j {
      ChoicesAddUp(states, steps, i, j - 1, choice);
      assert Follows(states, steps, i, j - 1, choice);
    }
  }

  /** Step `m`, if it is an allocation, selects by a counter that counts the allocations. */
  ghost predicate Picks(states: seq<State>, steps: seq<Step>, i: nat, m: nat, order: seq<NodeId>)
    requires i <= m < |steps| && |steps| < |states| && order != []
  {
    steps[m].Allocate? ==>
      && states[m].nodeIndex == (states[i].nodeIndex + Allocations(steps, i, m)) % UINT32_SPAN
      && NodesGiven(states[m + 1], steps[m].u) == Select(order, StartOf(states[m].nodeIndex, |order|), REPLICATION_FACTOR)
  }

  lemma StepPicks(states: seq<State>, steps: seq<Step>, i: nat, m: nat, order: seq<NodeId>)
    requires Run(states, steps) && i <= m < |steps| && order != [] && (steps[m].Allocate? ==> steps[m].order == order)
    ensures Picks(states, steps, i, m, order)
  {
    if steps[m].Allocate? {
      CounterCounts(states, steps, i, m);
      AllocationSelects(states[m], steps[m].u, order);
    }
  }

  /** The counter's remainder makes the same choice as the counter. */
  lemma SelectionIsChoice(choice: nat -> seq<NodeId>, order: seq<NodeId>, counter: nat, x: nat, index: nat)
    requires order != [] && AreSelections(choice, order, counter) && index == (counter + x) % UINT32_SPAN
    ensures choice(x) == Select(order, StartOf(index, |order|), REPLICATION_FACTOR)
  {
    StartOfWrapped(counter + x, |order|);
  }

  lemma PicksFollow(states: seq<State>, steps: seq<Step>, i: nat, m: nat, order: seq<NodeId>, choice: nat -> seq<NodeId>)
    requires i <= m < |steps| && |steps| < |states| && order != [] && Picks(states, steps, i, m, order)
    requires AreSelections(choice, order, states[i].nodeIndex)
    ensures Follows(states, steps, i, m, choice)
  {
    if steps[m].Allocate? {
      SelectionIsChoice(choice, order, states[i].nodeIndex, Allocations(steps, i, m), states[m].nodeIndex);
    }
  }

  lemma PicksArePlaced(states: seq<State>, steps: seq<Step>, i: nat, j: nat, order: seq<NodeId>)
    requires i <= j <= |steps| && |steps| < |states| && order != []
    requires forall m :: i <= m < j ==> Picks(states, steps, i, m, order)
    ensures PlacedBetween(states, steps, i, j) == Placed(order, states[i].nodeIndex, REPLICATION_FACTOR, Allocations(steps, i, j))
  {
    var choice := Selections(order, states[i].nodeIndex);
    forall m | i <= m < j
      ensures Follows(states, steps, i, m, choice)
    {
      PicksFollow(states, steps, i, m, order, choice);
    }
    ChoicesAddUp(states, steps, i, j, choice);
    ChosenIsPlaced(choice, order, states[i].nodeIndex, Allocations(steps, i, j));
  }

  lemma Selections(order: seq<NodeId>, counter: nat) returns (choice: nat -> seq<NodeId>)
    requires order != []
    ensures AreSelections(choice, order, counter)
  {
    choice := (x: nat) => Select(order, StartOf(counter + x, |order|), REPLICATION_FACTOR);
  }

  /** The allocations of a run, whichever uploads they serve, are successive selections. */
  lemma AllocationsAreSelections(states: seq<State>, steps: seq<Step>, i: nat, j: nat, order: seq<NodeId>)
    requires Run(states, steps) && i <= j <= |steps| && order != [] && SameOrder(steps, i, j, order)
    ensures PlacedBetween(states, steps, i, j) == Placed(order, states[i].nodeIndex, REPLICATION_FACTOR, Allocations(steps, i, j))
  {
    forall m | i <= m < j
      ensures Picks(states, steps, i, m, order)
    {
      StepPicks(states, steps, i, m, order);
    }
    PicksArePlaced(states, steps, i, j, order);
  }

  lemma {:induction false} IndexInRange(states: seq<State>, steps: seq<Step>, k: nat)
    requires Run(states, steps) && k < |states|
    ensures states[k].nodeIndex < UINT32_SPAN
  {
    if k > 0 {
      IndexInRange(states, steps, k - 1);
      var s, step := states[k - 1], steps[k - 1];
      if step.Allocate? {
        AllocationSelects(s, step.u, step.order);
      } else {
        OthersLeaveIndex(s, step);
      }
    }
  }

  /**
   Fairness over runs. Between two states of a run with one order of the nodes and no wrap of the
   selection counter, any two nodes get loads that differ by at most the replication factor; and if
   there were as many allocations as nodes, each got exactly that many replicas.
   */
  lemma RunIsFair(states: seq<State>, steps: seq<Step>, i: nat, j: nat, order: seq<NodeId>, x: NodeId, y: NodeId)
    requires Run(states, steps) && i <= j <= |steps| && SameOrder(steps, i, j, order)
    requires NoDuplicates(order) && x in order && y in order
    requires states[i].nodeIndex + Allocations(steps, i, j) <= UINT32_SPAN
    ensures var placed := multiset(PlacedBetween(states, steps, i, j));
            && placed[x] <= placed[y] + REPLICATION_FACTOR
            && (Allocations(steps, i, j) == |order| ==> placed[x] == REPLICATION_FACTOR)
  {
    var c, k := states[i].nodeIndex, Allocations(steps, i, j);
    AllocationsAreSelections(states, steps, i, j, order);
    LoadsStayClose(order, c, REPLICATION_FACTOR, k, x, y);
    if k == |order| {
      RoundIsFair(order, c, REPLICATION_FACTOR, x);
    }
  }
}
