/** How long a deleted file can still be read: exactly the tombstones' lifetime. */
module GraceTime {
  import opened Types
  import opened Tombstones
  import opened Protocol
  import opened Invariant
  import opened Preservation
  import opened DiskPreservation
  import opened Safety
  import opened Refinement
  import opened Lifetimes
  import opened LateRun
  import opened Outages

  /** If upload `u` is a tombstone, it is one for no longer than `budget`. */
  predicate NotOlder(s: State, u: nat, budget: nat) {
    u < |s.uploads| && (s.uploads[u].phase.Pending? ==> s.clock - s.uploads[u].phase.since <= budget)
  }

  /**
   From the lookup at step `i` up to state `j`, some node of each chunk stays registered and up, and the
   file has been a tombstone for no longer than `budget`.
   */
  ghost predicate Budgeted(states: seq<State>, steps: seq<Step>, i: nat, j: nat, name: Name, pick: seq<nat>, budget: nat) {
    && Run(states, steps) && i < j < |states|
    && steps[i] == Lookup(name) && name in states[i].entries
    && PicksStayAlive(states, i, j, states[i].entries[name].meta.chunks, pick)
    && forall m :: i <= m < j ==> NotOlder(states[m], states[i].entries[name].uid, budget)
  }

  /** The download that step `i` started is broken in state `j`. */
  predicate HasBroken(states: seq<State>, i: nat, j: nat) {
    && i < |states| && j < |states| && |states[i].readers| < |states[j].readers|
    && states[j].readers[|states[i].readers|].progress.Broken?
  }

  /** No download breaks within the budget. */
  ghost predicate Protects(budget: nat) {
    forall states: seq<State>, steps: seq<Step>, i: nat, j: nat, name: Name, pick: seq<nat> ::
      Budgeted(states, steps, i, j, name, pick, budget) ==> !HasBroken(states, i, j)
  }

  /** A budget protects all downloads with working nodes if and only if it is within the tombstones' lifetime. */
  lemma GraceTimeExactly(budget: nat)
    ensures Protects(budget) <==> budget <= 300_000_000_000
  {
    if budget <= TOMBSTONE_LIFETIME {
      LifetimeProtects(budget);
    } else {
      LongerDoesNotProtect(budget);
    }
  }

  lemma LifetimeProtects(budget: nat)
    requires budget <= TOMBSTONE_LIFETIME
    ensures Protects(budget)
  {
    forall states: seq<State>, steps: seq<Step>, i: nat, j: nat, name: Name, pick: seq<nat> | Budgeted(states, steps, i, j, name, pick, budget)
      ensures !HasBroken(states, i, j)
    {
      var u := states[i].entries[name].uid;
      forall m | i <= m < j
        ensures Young(states[m], u)
      {
        assert NotOlder(states[m], u, budget);
      }
      GraceWindow(states, steps, i, j, |states[i].readers|, name, pick);
    }
  }

  // ---------------------------------------------------------------- the late run, from its lookup on

  predicate Outage(step: Step) {
    step.NodeDown? || step.NodeUp?
  }

  /** Nodes go down and come up by these steps alone. */
  lemma DownStays(states: seq<State>, steps: seq<Step>, k: nat)
    requires Run(states, steps) && k < |states| && forall step :: step in steps ==> !Outage(step)
    ensures states[k].down == states[0].down
  {
    forall addr
      ensures addr in states[k].down <==> addr in states[0].down
    {
      DownExactly(states, steps, k, addr);
      assert forall x :: 0 <= x < k ==> steps[x] in steps;
    }
  }

  lemma {:induction false} ClockGrows(states: seq<State>, steps: seq<Step>, i: nat, j: nat)
    requires Run(states, steps) && i <= j < |states|
    ensures states[i].clock <= states[j].clock
  {
    if i < j {
      ClockGrows(states, steps, i, j - 1);
      RunKeepsInv(states, steps, j - 1);
      StepGrows(states[j - 1], steps[j - 1]);
    }
  }

  /** Without outages, a node that is registered and up in the end has been so since it was known. */
  lemma AliveSince(states: seq<State>, steps: seq<Step>, m: nat, j: nat, id: NodeId)
    requires Run(states, steps) && m <= j < |states| && forall step :: step in steps ==> !Outage(step)
    requires Known(states[m].bound, id) && Alive(states[j], id)
    ensures Alive(states[m], id)
  {
    if id !in states[m].registry {
      UnregisteredForever(states, steps, m, j, id);
    }
    IdsBoundForever(states, steps, m, j, id);
    IdsBoundForever(states, steps, m, m, id);
    DownStays(states, steps, m);
    DownStays(states, steps, j);
  }

  /** A tombstone that is still pending in the end has been one since the same time. */
  lemma NotOlderBefore(states: seq<State>, steps: seq<Step>, m: nat, j: nat, u: nat, since: nat, budget: nat)
    requires Run(states, steps) && m <= j < |states| && u < |states[m].uploads| && Committed(states[m].uploads[u].phase)
    requires u < |states[j].uploads| && states[j].uploads[u].phase == Pending(since) && states[j].clock <= since + budget
    ensures NotOlder(states[m], u, budget)
  {
    FatesAdvance(states, steps, m, j, u);
    ClockGrows(states, steps, m, j);
  }

  lemma NoOutageLate(s: State, addr: Addr, name: Name, b: byte)
    ensures forall step :: step in LateSteps(s, addr, name, b) ==> !Outage(step)
  {
  }

  /** The node of the one chunk is known from the lookup on. */
  lemma LookupKnows(states: seq<State>, steps: seq<Step>, i: nat, name: Name, b: byte)
    requires Run(states, steps) && i < |steps| && steps[i] == Lookup(name)
    requires name in states[i].entries && states[i].entries[name] == TheFile(name, b)
    ensures 0 < |states[i].uploads| && Committed(states[i].uploads[0].phase) && Known(states[i].bound, 1)
  {
    RunKeepsInv(states, steps, i);
    assert FileOk(states[i].uploads, states[i].entries[name]);
    NodesKnown(states[i], 0, 0);
    assert states[i].uploads[0].infos[0].nodeIds[0] == 1;
  }

  lemma LateRunBudgeted(states: seq<State>, steps: seq<Step>, i: nat, name: Name, b: byte, since: nat, budget: nat)
    requires Run(states, steps) && i < |steps| && steps[i] == Lookup(name) && forall step :: step in steps ==> !Outage(step)
    requires name in states[i].entries && states[i].entries[name] == TheFile(name, b)
    requires var end := states[|steps|];
             && Alive(end, 1) && 0 < |end.uploads| && end.uploads[0].phase == Pending(since) && end.clock <= since + budget
    ensures Budgeted(states, steps, i, |steps|, name, [0], budget)
  {
    var j := |steps|;
    LookupKnows(states, steps, i, name, b);
    forall m | i <= m < j
      ensures PicksAlive(states[m], [TheChunk()], [0]) && NotOlder(states[m], 0, budget)
    {
      IdsBoundForever(states, steps, i, m, 1);
      AliveSince(states, steps, m, j, 1);
      FatesAdvance(states, steps, i, m, 0);
      NotOlderBefore(states, steps, m, j, 0, since, budget);
    }
  }

  lemma LongerDoesNotProtect(budget: nat)
    requires budget > TOMBSTONE_LIFETIME
    ensures !Protects(budget)
  {
    var s := State([], 0, [], map[], {}, map[], 0, map[], [], [], [], Idle);
    var addr, name, b: byte := Addr("node", 1), "f", 0;
    LateDownloadBreaks(s, addr, name, b);
    var steps := LateSteps(s, addr, name, b);
    var states: seq<State> :| LateBroken(states, s, addr, name, b);
    NoOutageLate(s, addr, name, b);
    var j := |steps|;
    ReaderOrigin(states, steps, j, 0);
    var i: nat :| i < j && LookedUp(states, steps, i, 0, states[j].readers[0]);
    assert 1 in TheChunk().nodeIds;
    LateRunBudgeted(states, steps, i, name, b, s.clock, budget);
    assert HasBroken(states, i, j);
  }
}
