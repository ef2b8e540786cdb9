/** The planner's operations (`GoapPlanner`), each proved against the search
    functions of `Planning`. */
module GoapPlanner {
  import opened Facts
  import opened Planning
  import opened Actions

  /** The membership scan both `inState` and `populateState` run: stop at the
      first element equal to `x`. */
  method Contains(s: seq<Fact>, x: Fact) returns (found: bool)
    ensures found == (x in s)
  {
    found := false;
    var i := 0;
    while i < |s|
      invariant 0 <= i <= |s|
      invariant !found ==> x !in s[..i]
      invariant found ==> x in s
      decreases |s| - i, if found then 0 else 1
    {
      if s[i] == x {
        found := true;
        break;
      }
      assert s[..i + 1] == s[..i] + [s[i]];
      i := i + 1;
    }
    assert !found ==> s[..i] == s;
  }

  /** `inState`: a flag that is cleared when some pair of `test` is missing. */
  method InState(test: seq<Fact>, state: seq<Fact>) returns (allMatch: bool)
    ensures allMatch == Holds(test, state)
  {
    allMatch := true;
    for i := 0 to |test|
      invariant allMatch <==> forall j :: 0 <= j < i ==> test[j] in state
    {
      var match_ := Contains(state, test[i]);
      if !match_ {
        allMatch := false;
      }
    }
  }

  /** `populateState`: copy the state, then apply each change as `ApplyOne` says. */
  method PopulateState(currentState: seq<Fact>, stateChange: seq<Fact>) returns (state: seq<Fact>)
    requires NoDup(currentState)
    ensures state == Apply(currentState, stateChange)
  {
    state := [];
    for i := 0 to |currentState|
      invariant state == currentState[..i]
    {
      assert currentState[i] !in currentState[..i];
      state := SetAdd(state, currentState[i]);
      assert currentState[..i + 1] == currentState[..i] + [currentState[i]];
    }
    assert currentState[..|currentState|] == currentState;
    for i := 0 to |stateChange|
      invariant state == Apply(currentState, stateChange[..i])
    {
      var change := stateChange[i];
      var present := Contains(state, change);
      if present {
        state := RemoveKey(state, change.key);
        state := SetAdd(state, change);
      } else {
        state := SetAdd(state, change);
      }
      assert stateChange[..i + 1][..i] == stateChange[..i];
    }
    assert stateChange[..|stateChange|] == stateChange;
  }

  /** Dropping one element from the end of a filter. */
  lemma RemoveSnoc(s: seq<nat>, x: nat, y: nat)
    ensures Remove(s + [x], y) == Remove(s, y) + (if x == y then [] else [x])
  {
    if s != [] {
      assert (s + [x])[1..] == s[1..] + [x];
      RemoveSnoc(s[1..], x, y);
    }
  }

  /** `actionSubset`: every action except `removeMe`, in order. */
  method ActionSubset(actions: seq<nat>, removeMe: nat) returns (subset: seq<nat>)
    requires NoDup(actions)
    ensures subset == Remove(actions, removeMe)
  {
    subset := [];
    for i := 0 to |actions|
      invariant subset == Remove(actions[..i], removeMe)
    {
      RemoveSnoc(actions[..i], actions[i], removeMe);
      assert actions[..i + 1] == actions[..i] + [actions[i]];
      if actions[i] != removeMe {
        assert actions[i] !in actions[..i];
        subset := SetAdd(subset, actions[i]);
      }
    }
    assert actions[..|actions|] == actions;
  }

  /** `buildGraph`: the leaves list is threaded through (it is shared by every
      level of the recursion); the result says whether this call added a leaf. */
  method BuildGraph(ops: seq<Op>, parent: Node, leaves: seq<Node>, usable: seq<nat>, goal: seq<Fact>)
    returns (leavesOut: seq<Node>, foundOne: bool)
    requires ValidIds(ops, usable) && NoDup(usable) && NoDup(parent.state)
    ensures leavesOut == leaves + LeavesOf(ops, parent, usable, goal)
    ensures foundOne <==> LeavesOf(ops, parent, usable, goal) != []
    decreases |usable|
  {
    foundOne := false;
    leavesOut := leaves;
    for k := 0 to |usable|
      invariant leavesOut + LeavesFrom(ops, parent, usable, goal, k) == leaves + LeavesOf(ops, parent, usable, goal)
      invariant foundOne <==> |leavesOut| > |leaves|
      invariant |leavesOut| >= |leaves|
    {
      var action := usable[k];
      ghost var prev := leavesOut;
      ghost var added: seq<Node> := [];
      var ok := InState(ops[action].pre, parent.state);
      if ok {
        var currentState := PopulateState(parent.state, ops[action].eff);
        var node := Node(Some(parent), parent.runningCost + ops[action].cost, currentState, Some(action));
        var atGoal := InState(goal, currentState);
        if atGoal {
          leavesOut := leavesOut + [node];
          foundOne := true;
          added := [node];
        } else {
          var subset := ActionSubset(usable, action);
          RemoveValidIds(ops, usable, action);
          var found: bool;
          leavesOut, found := BuildGraph(ops, node, leavesOut, subset, goal);
          added := LeavesOf(ops, node, subset, goal);
          if found {
            foundOne := true;
          }
        }
      }
      assert added == Branch(ops, parent, usable, goal, action);
      assert leavesOut == prev + added;
      assert LeavesFrom(ops, parent, usable, goal, k) == added + LeavesFrom(ops, parent, usable, goal, k + 1);
      assert prev + LeavesFrom(ops, parent, usable, goal, k) == leavesOut + LeavesFrom(ops, parent, usable, goal, k + 1);
    }
  }

  /** The running-minimum loop of `plan`: the first leaf wins, and a later leaf
      replaces it only when it is strictly cheaper. */
  method CheapestLeaf(leaves: seq<Node>) returns (cheapest: Option<nat>)
    ensures cheapest == FirstCheapest(Costs(leaves))
  {
    ghost var costs := Costs(leaves);
    cheapest := None;
    for i := 0 to |leaves|
      invariant cheapest == FirstCheapest(costs[..i])
    {
      assert costs[..i + 1][..i] == costs[..i];
      if cheapest.None? {
        cheapest := Some(i);
      } else if leaves[i].runningCost < leaves[cheapest.value].runningCost {
        cheapest := Some(i);
      }
    }
    assert costs[..|leaves|] == costs;
  }

  /** Walk the parent links from `leaf`, inserting each action at the front. */
  method WalkBack(leaf: Node) returns (result: seq<nat>)
    ensures result == PathOf(leaf)
  {
    result := [];
    var n: Option<Node> := Some(leaf);
    while n.Some?
      invariant PathOf(leaf) == (if n.Some? then PathOf(n.value) else []) + result
      decreases n
    {
      var node := n.value;
      if node.action.Some? {
        result := [node.action.value] + result;
      }
      n := node.parent;
    }
  }

  /** The indices of the actions whose procedural check succeeds, in order. */
  function UsableIds(checks: seq<ProceduralCheck>): (r: seq<nat>)
    ensures forall i :: 0 <= i < |r| ==> r[i] < |checks| && checks[r[i]].feasible
    ensures forall i :: 0 <= i < |checks| && checks[i].feasible ==> i in r
    ensures forall i, j :: 0 <= i < j < |r| ==> r[i] < r[j]
    decreases |checks|
  {
    if checks == [] then []
    else UsableIds(checks[..|checks| - 1]) + (if checks[|checks| - 1].feasible then [|checks| - 1] else [])
  }

  /** The search's view of the actions: their preconditions, effects and cost now. */
  function Catalogue(available: seq<GoapAction>): (ops: seq<Op>)
    reads available
    ensures |ops| == |available|
    ensures forall i :: 0 <= i < |available| ==>
      ops[i] == Op(available[i].preconditions, available[i].effects, available[i].cost)
  {
    seq(|available|, i reads available requires 0 <= i < |available| =>
      Op(available[i].preconditions, available[i].effects, available[i].cost))
  }

  /** The first loop of `plan`: `doReset` on every action. */
  method ResetActions(available: seq<GoapAction>, resets: seq<SubclassReset>)
    requires NoDup(available) && |resets| == |available|
    modifies available
    ensures forall j :: 0 <= j < |available| ==> ResetDone(available[j], resets[j])
  {
    for i := 0 to |available|
      invariant forall j :: 0 <= j < i ==> ResetDone(available[j], resets[j])
      invariant forall j :: i <= j < |available| ==> unchanged(available[j])
    {
      available[i].DoReset(resets[i]);
    }
  }

  /** The second loop of `plan`: keep the actions whose procedural check succeeds. */
  method UsableActions(available: seq<GoapAction>, checks: seq<ProceduralCheck>) returns (usable: seq<nat>)
    requires NoDup(available) && |checks| == |available|
    modifies available
    ensures usable == UsableIds(checks)
    ensures forall j :: 0 <= j < |available| ==> Checked(available[j], checks[j])
  {
    usable := [];
    for i := 0 to |available|
      invariant forall j :: 0 <= j < i ==> Checked(available[j], checks[j])
      invariant forall j :: i <= j < |available| ==> unchanged(available[j])
      invariant usable == UsableIds(checks[..i])
    {
      assert checks[..i + 1][..i] == checks[..i];
      var ok := available[i].CheckProceduralPrecondition(checks[i]);
      if ok {
        usable := usable + [i];
      }
    }
    assert checks[..|available|] == checks;
  }

  /** The search part of `plan`: build the tree from the root holding
      `worldState`, give up when no leaf was recorded, otherwise walk back from
      the first cheapest leaf. */
  method SearchPlan(ops: seq<Op>, usable: seq<nat>, worldState: seq<Fact>, goal: seq<Fact>)
    returns (plan: Option<seq<nat>>)
    requires ValidIds(ops, usable) && NoDup(usable) && NoDup(worldState)
    ensures plan == Search(ops, usable, worldState, goal)
  {
    var start := Root(worldState);
    var leaves, success := BuildGraph(ops, start, [], usable, goal);
    assert leaves == LeavesOf(ops, start, usable, goal);
    if !success {
      assert Costs(leaves) == [];
      return None;
    }
    var cheapest := CheapestLeaf(leaves);
    var ids := WalkBack(leaves[cheapest.value]);
    return Some(ids);
  }

  /** The plan's indices refer to actions of the catalogue. */
  lemma SearchIdsValid(ops: seq<Op>, usable: seq<nat>, ws: seq<Fact>, goal: seq<Fact>)
    requires ValidIds(ops, usable)
    ensures Search(ops, usable, ws, goal).Some? ==> ValidIds(ops, Search(ops, usable, ws, goal).value)
  {
    SearchCorrect(ops, usable, ws, goal);
  }

  /** The queue-building loop of `plan`: the action objects of a path, in order. */
  method ActionsOf(available: seq<GoapAction>, ids: seq<nat>) returns (result: seq<GoapAction>)
    requires forall i :: 0 <= i < |ids| ==> ids[i] < |available|
    ensures |result| == |ids|
    ensures forall j :: 0 <= j < |ids| ==> result[j] == available[ids[j]]
  {
    result := [];
    for i := 0 to |ids|
      invariant |result| == i
      invariant forall j :: 0 <= j < i ==> result[j] == available[ids[j]]
    {
      result := result + [available[ids[i]]];
    }
  }

  /** `plan`: reset every action, keep those whose procedural check succeeds,
      search from the root holding `worldState`, and return the actions on the
      root path of the first cheapest leaf, or None when no leaf was found.
      The subclass hooks `reset()` and `checkProceduralPrecondition` are given
      as their outcomes, one per action. */
  method Plan(available: seq<GoapAction>, resets: seq<SubclassReset>, checks: seq<ProceduralCheck>,
              worldState: seq<Fact>, goal: seq<Fact>) returns (queue: Option<seq<GoapAction>>)
    requires NoDup(available) && NoDup(worldState)
    requires |resets| == |available| && |checks| == |available|
    modifies available
    ensures forall i :: 0 <= i < |available| ==> Prepared(available[i], resets[i], checks[i])
    ensures queue.None? <==> Search(Catalogue(available), UsableIds(checks), worldState, goal).None?
    ensures queue.Some? ==>
      var p := Search(Catalogue(available), UsableIds(checks), worldState, goal).value;
      |queue.value| == |p| && forall i :: 0 <= i < |p| ==> p[i] < |available| && queue.value[i] == available[p[i]]
  {
    ResetActions(available, resets);
    var usable := UsableActions(available, checks);
    var ops := Catalogue(available);
    var found := SearchPlan(ops, usable, worldState, goal);
    if found.None? {
      return None;
    }
    SearchIdsValid(ops, usable, worldState, goal);
    var result := ActionsOf(available, found.value);
    assert ops == Catalogue(available);
    queue := Some(result);
  }
}
