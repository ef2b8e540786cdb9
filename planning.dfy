/** The search the planner performs, as functions, and what is proved about it.

    Actions are referred to by their index into a catalogue of `Op`s (one per
    available action: its preconditions, effects and cost as they stand when
    the search starts); a set of usable actions is a duplicate-free sequence of
    indices in iteration order. */
module Planning {
  import opened Facts

  /** One action as the search sees it. */
  datatype Op = Op(pre: seq<Fact>, eff: seq<Fact>, cost: int)

  /** A search-tree node (`GoapPlanner.Node`): parent, accumulated cost, simulated
      state and the action that led here (none at the root). */
  datatype Node = Node(parent: Option<Node>, runningCost: int, state: seq<Fact>, action: Option<nat>)

  /** `inState`: every pair of `test` occurs, key AND value, in `state`. */
  predicate Holds(test: seq<Fact>, state: seq<Fact>)
  {
    forall t :: t in test ==> t in state
  }

  /** One change of `populateState`. The test is on the whole pair: only when
      the very pair is already present are all pairs with its name dropped
      before it is added again; otherwise it is simply added, next to any pair
      with the same name and the other value. */
  function ApplyOne(s: seq<Fact>, change: Fact): (r: seq<Fact>)
    ensures change in r
    ensures forall f :: f in r <==> f == change || (f in s && (change in s ==> f.key != change.key))
    ensures NoDup(s) ==> NoDup(r)
  {
    if change in s then SetAdd(RemoveKey(s, change.key), change) else SetAdd(s, change)
  }

  /** `populateState`: the changes applied one after another, in iteration order. */
  function Apply(s: seq<Fact>, changes: seq<Fact>): (r: seq<Fact>)
    ensures NoDup(s) ==> NoDup(r)
    decreases |changes|
  {
    if changes == [] then s
    else ApplyOne(Apply(s, changes[..|changes| - 1]), changes[|changes| - 1])
  }

  /** Every index refers to an action of the catalogue. */
  predicate ValidIds(ops: seq<Op>, ids: seq<nat>)
  {
    forall i :: 0 <= i < |ids| ==> ids[i] < |ops|
  }

  /** Dropping an action keeps a set of indices valid. */
  lemma RemoveValidIds(ops: seq<Op>, ids: seq<nat>, a: nat)
    requires ValidIds(ops, ids)
    ensures ValidIds(ops, Remove(ids, a))
  {
    var r := Remove(ids, a);
    forall i | 0 <= i < |r| ensures r[i] < |ops| {
      assert r[i] in ids;
    }
  }

  /** The node reached from `n` by applying action `a`. */
  function Child(ops: seq<Op>, n: Node, a: nat): Node
    requires a < |ops|
  {
    Node(Some(n), n.runningCost + ops[a].cost, Apply(n.state, ops[a].eff), Some(a))
  }

  /** The root node: no parent, cost 0, the given world state, no action. */
  function Root(ws: seq<Fact>): Node
  {
    Node(None, 0, ws, None)
  }

  /** The leaves `buildGraph(n, leaves, usable, goal)` appends, in order. */
  function LeavesOf(ops: seq<Op>, n: Node, usable: seq<nat>, goal: seq<Fact>): seq<Node>
    requires ValidIds(ops, usable)
    decreases |usable|, 2
  {
    LeavesFrom(ops, n, usable, goal, 0)
  }

  /** The leaves contributed by the actions `usable[k..]` of one `buildGraph` loop. */
  function LeavesFrom(ops: seq<Op>, n: Node, usable: seq<nat>, goal: seq<Fact>, k: nat): seq<Node>
    requires ValidIds(ops, usable)
    decreases |usable|, 1, |usable| - k
  {
    if k >= |usable| then []
    else Branch(ops, n, usable, goal, usable[k]) + LeavesFrom(ops, n, usable, goal, k + 1)
  }

  /** The leaves contributed by one action `a` at node `n`: none when its
      preconditions fail; the child itself when it satisfies the goal (a leaf is
      never expanded); otherwise the leaves below the child, without `a`. */
  function Branch(ops: seq<Op>, n: Node, usable: seq<nat>, goal: seq<Fact>, a: nat): seq<Node>
    requires ValidIds(ops, usable) && a in usable
    decreases |usable|, 0
  {
    if !Holds(ops[a].pre, n.state) then []
    else
      var c := Child(ops, n, a);
      if Holds(goal, c.state) then [c]
      else RemoveValidIds(ops, usable, a); LeavesOf(ops, c, Remove(usable, a), goal)
  }

  /** The actions on the root path of `n`, root first. */
  function PathOf(n: Node): seq<nat>
    decreases n
  {
    (if n.parent.Some? then PathOf(n.parent.value) else []) +
    (if n.action.Some? then [n.action.value] else [])
  }

  /** The running costs of a list of nodes. */
  function Costs(leaves: seq<Node>): (r: seq<int>)
    ensures |r| == |leaves|
    ensures forall i :: 0 <= i < |leaves| ==> r[i] == leaves[i].runningCost
  {
    seq(|leaves|, i requires 0 <= i < |leaves| => leaves[i].runningCost)
  }

  /** The index the cheapest-leaf loop of `plan` ends with: the first entry
      no later entry is strictly cheaper than. */
  function FirstCheapest(costs: seq<int>): (r: Option<nat>)
    ensures r.None? <==> costs == []
    ensures r.Some? ==> r.value < |costs|
    ensures r.Some? ==> forall j :: 0 <= j < |costs| ==> costs[r.value] <= costs[j]
    ensures r.Some? ==> forall j :: 0 <= j < r.value ==> costs[r.value] < costs[j]
  {
    if costs == [] then None
    else
      var prev := FirstCheapest(costs[..|costs| - 1]);
      if prev.None? || costs[|costs| - 1] < costs[prev.value] then Some(|costs| - 1) else prev
  }

  /** The plan `plan` returns, as action indices: the root path of the first
      cheapest leaf, or None when no leaf was recorded. */
  function Search(ops: seq<Op>, usable: seq<nat>, ws: seq<Fact>, goal: seq<Fact>): Option<seq<nat>>
    requires ValidIds(ops, usable)
  {
    var leaves := LeavesOf(ops, Root(ws), usable, goal);
    match FirstCheapest(Costs(leaves))
    case None => None
    case Some(i) => Some(PathOf(leaves[i]))
  }

  // Reference definitions: what a valid plan is, independently of the search.

  /** `P` is a valid plan from state `s` with the actions `usable`: it is not
      empty, each action is usable (and is then no longer usable), its
      preconditions hold in the state it is applied to, and the goal holds
      after the last action and after no earlier one. */
  predicate Reaches(ops: seq<Op>, s: seq<Fact>, usable: seq<nat>, P: seq<nat>, goal: seq<Fact>)
    requires ValidIds(ops, usable)
    decreases |P|
  {
    |P| > 0 && P[0] in usable && Holds(ops[P[0]].pre, s) &&
    var next := Apply(s, ops[P[0]].eff);
    if Holds(goal, next) then |P| == 1
    else RemoveValidIds(ops, usable, P[0]); Reaches(ops, next, Remove(usable, P[0]), P[1..], goal)
  }

  /** The node reached from `n` by applying the actions of `P` in order. */
  function Follow(ops: seq<Op>, n: Node, P: seq<nat>): Node
    requires ValidIds(ops, P)
    decreases |P|
  {
    if P == [] then n else Follow(ops, Child(ops, n, P[0]), P[1..])
  }

  /** The state reached from `s` by applying the effects of `P` in order. */
  function Replay(ops: seq<Op>, s: seq<Fact>, P: seq<nat>): seq<Fact>
    requires ValidIds(ops, P)
    decreases |P|
  {
    if P == [] then s else Replay(ops, Apply(s, ops[P[0]].eff), P[1..])
  }

  /** The total cost of the actions of `P`. */
  function SumCost(ops: seq<Op>, P: seq<nat>): int
    requires ValidIds(ops, P)
    decreases |P|
  {
    if P == [] then 0 else ops[P[0]].cost + SumCost(ops, P[1..])
  }

  // Properties of populateState and inState.

  /** A pair whose name is missing from the state matches neither value. */
  lemma MissingKeyFails(s: seq<Fact>, k: string, b: bool, test: seq<Fact>)
    requires !HasKey(s, k) && Fact(k, b) in test
    ensures !Holds(test, s)
  {
  }

  /** Applying `(k, true)` to a state holding `(k, false)` keeps both pairs. */
  lemma ApplyKeepsOpposite(s: seq<Fact>, k: string, v: bool)
    requires Fact(k, !v) in s && Fact(k, v) !in s
    ensures Fact(k, v) in Apply(s, [Fact(k, v)]) && Fact(k, !v) in Apply(s, [Fact(k, v)])
  {
    assert [Fact(k, v)][..0] == [];
  }

  /** Applying a pair that is already present leaves it as the only pair with its name. */
  lemma ApplyCollapses(s: seq<Fact>, change: Fact)
    requires change in s
    ensures forall f :: f in ApplyOne(s, change) && f.key == change.key ==> f == change
  {
  }

  /** Changes with distinct names all end up in the result; pairs whose name no
      change mentions are kept. */
  lemma {:induction false} ApplyContainsChanges(s: seq<Fact>, changes: seq<Fact>)
    requires UniqueKeys(changes)
    ensures forall c :: c in changes ==> c in Apply(s, changes)
    ensures forall f: Fact :: f in s && !HasKey(changes, f.key) ==> f in Apply(s, changes)
    decreases |changes|
  {
    if changes != [] {
      var prefix := changes[..|changes| - 1];
      var last := changes[|changes| - 1];
      assert UniqueKeys(prefix);
      ApplyContainsChanges(s, prefix);
      forall c | c in changes ensures c in Apply(s, changes) {
        if c != last {
          var i :| 0 <= i < |changes| && changes[i] == c;
          assert i < |changes| - 1 && c in prefix;
        }
      }
      forall f: Fact | f in s && !HasKey(changes, f.key) ensures f in Apply(s, changes) {
        assert f.key != last.key;
      }
    }
  }

  // Properties of valid plans.

  /** A valid plan is not empty, uses only usable actions, none of them twice,
      and so is no longer than the set of usable actions (the search depth bound). */
  lemma {:induction false} ReachesShape(ops: seq<Op>, s: seq<Fact>, usable: seq<nat>, P: seq<nat>, goal: seq<Fact>)
    requires ValidIds(ops, usable) && Reaches(ops, s, usable, P, goal)
    ensures 1 <= |P| <= |usable|
    ensures forall a :: a in P ==> a in usable
    ensures NoDup(P)
    ensures ValidIds(ops, P)
    decreases |P|
  {
    var a := P[0];
    var next := Apply(s, ops[a].eff);
    assert P == [a] + P[1..];
    if !Holds(goal, next) {
      RemoveValidIds(ops, usable, a);
      ReachesShape(ops, next, Remove(usable, a), P[1..], goal);
      NoDupCons(a, P[1..]);
    }
  }

  /** Following a plan extends the root path by exactly that plan. */
  lemma {:induction false} FollowPath(ops: seq<Op>, n: Node, P: seq<nat>)
    requires ValidIds(ops, P)
    ensures PathOf(Follow(ops, n, P)) == PathOf(n) + P
    decreases |P|
  {
    if P != [] {
      FollowPath(ops, Child(ops, n, P[0]), P[1..]);
      assert PathOf(n) + P == (PathOf(n) + [P[0]]) + P[1..];
    }
  }

  /** A node's running cost is its start cost plus the costs of the actions on the way. */
  lemma {:induction false} FollowCost(ops: seq<Op>, n: Node, P: seq<nat>)
    requires ValidIds(ops, P)
    ensures Follow(ops, n, P).runningCost == n.runningCost + SumCost(ops, P)
    ensures Follow(ops, n, P).state == Replay(ops, n.state, P)
    decreases |P|
  {
    if P != [] {
      FollowCost(ops, Child(ops, n, P[0]), P[1..]);
    }
  }

  // Soundness: every recorded leaf is the end of a valid plan.

  lemma {:induction false} LeavesSound(ops: seq<Op>, n: Node, usable: seq<nat>, goal: seq<Fact>, leaf: Node)
    requires ValidIds(ops, usable) && leaf in LeavesOf(ops, n, usable, goal)
    ensures exists P :: Reaches(ops, n.state, usable, P, goal) && ValidIds(ops, P) && leaf == Follow(ops, n, P)
    decreases |usable|, 2
  {
    LeavesFromSound(ops, n, usable, goal, 0, leaf);
  }

  lemma {:induction false} LeavesFromSound(ops: seq<Op>, n: Node, usable: seq<nat>, goal: seq<Fact>, k: nat, leaf: Node)
    requires ValidIds(ops, usable) && leaf in LeavesFrom(ops, n, usable, goal, k)
    ensures exists P :: Reaches(ops, n.state, usable, P, goal) && ValidIds(ops, P) && leaf == Follow(ops, n, P)
    decreases |usable|, 1, |usable| - k
  {
    if leaf in Branch(ops, n, usable, goal, usable[k]) {
      BranchSound(ops, n, usable, goal, usable[k], leaf);
    } else {
      LeavesFromSound(ops, n, usable, goal, k + 1, leaf);
    }
  }

  lemma {:induction false} BranchSound(ops: seq<Op>, n: Node, usable: seq<nat>, goal: seq<Fact>, a: nat, leaf: Node)
    requires ValidIds(ops, usable) && a in usable && leaf in Branch(ops, n, usable, goal, a)
    ensures exists P :: Reaches(ops, n.state, usable, P, goal) && ValidIds(ops, P) && leaf == Follow(ops, n, P)
    decreases |usable|, 0
  {
    assert a < |ops|;
    assert Holds(ops[a].pre, n.state);
    var c := Child(ops, n, a);
    if Holds(goal, c.state) {
      var P := [a];
      assert leaf == c;
      assert ValidIds(ops, P);
      assert Follow(ops, n, P) == Follow(ops, c, []) == c;
      assert Reaches(ops, n.state, usable, P, goal);
    } else {
      var rest := Remove(usable, a);
      RemoveValidIds(ops, usable, a);
      assert leaf in LeavesOf(ops, c, rest, goal);
      LeavesSound(ops, c, rest, goal, leaf);
      var P' :| Reaches(ops, c.state, rest, P', goal) && ValidIds(ops, P') && leaf == Follow(ops, c, P');
      var P := [a] + P';
      assert P[0] == a && P[1..] == P';
      assert ValidIds(ops, P);
      assert Follow(ops, n, P) == Follow(ops, c, P');
      assert Reaches(ops, n.state, usable, P, goal);
    }
  }

  // Completeness: every valid plan ends in a recorded leaf.

  lemma {:induction false} ReachedIsLeaf(ops: seq<Op>, n: Node, usable: seq<nat>, P: seq<nat>, goal: seq<Fact>)
    requires ValidIds(ops, usable) && Reaches(ops, n.state, usable, P, goal)
    ensures ValidIds(ops, P) && Follow(ops, n, P) in LeavesOf(ops, n, usable, goal)
    decreases |P|
  {
    ReachesShape(ops, n.state, usable, P, goal);
    var a := P[0];
    var c := Child(ops, n, a);
    assert Follow(ops, n, P) == Follow(ops, c, P[1..]);
    if Holds(goal, c.state) {
      assert P[1..] == [];
    } else {
      RemoveValidIds(ops, usable, a);
      ReachedIsLeaf(ops, c, Remove(usable, a), P[1..], goal);
    }
    assert Follow(ops, n, P) in Branch(ops, n, usable, goal, a);
    var k :| 0 <= k < |usable| && usable[k] == a;
    BranchInLeavesFrom(ops, n, usable, goal, 0, k);
  }

  lemma {:induction false} BranchInLeavesFrom(ops: seq<Op>, n: Node, usable: seq<nat>, goal: seq<Fact>, j: nat, k: nat)
    requires ValidIds(ops, usable) && j <= k < |usable|
    ensures forall x :: x in Branch(ops, n, usable, goal, usable[k]) ==> x in LeavesFrom(ops, n, usable, goal, j)
    decreases k - j
  {
    if j < k {
      BranchInLeavesFrom(ops, n, usable, goal, j + 1, k);
    }
  }

  /** The root path of the root is empty. */
  lemma RootPath(ws: seq<Fact>)
    ensures PathOf(Root(ws)) == []
  {
  }

  /** What `plan` promises. It finds no plan exactly when no valid plan exists.
      Otherwise its plan is valid (preconditions hold step by step, the goal at
      the end), uses only usable actions and none twice, and costs no more than
      any valid plan. */
  lemma SearchCorrect(ops: seq<Op>, usable: seq<nat>, ws: seq<Fact>, goal: seq<Fact>)
    requires ValidIds(ops, usable)
    ensures Search(ops, usable, ws, goal).None? <==> forall P :: !Reaches(ops, ws, usable, P, goal)
    ensures Search(ops, usable, ws, goal).Some? ==>
      var p := Search(ops, usable, ws, goal).value;
      Reaches(ops, ws, usable, p, goal) && NoDup(p) && ValidIds(ops, p) &&
      (forall a :: a in p ==> a in usable) &&
      Holds(goal, Replay(ops, ws, p)) &&
      forall P :: Reaches(ops, ws, usable, P, goal) ==> ValidIds(ops, P) && SumCost(ops, p) <= SumCost(ops, P)
  {
    var root := Root(ws);
    var leaves := LeavesOf(ops, root, usable, goal);
    var r := FirstCheapest(Costs(leaves));
    if r.None? {
      forall P ensures !Reaches(ops, ws, usable, P, goal) {
        if Reaches(ops, ws, usable, P, goal) {
          ReachedIsLeaf(ops, root, usable, P, goal);
        }
      }
    } else {
      var leaf := leaves[r.value];
      LeavesSound(ops, root, usable, goal, leaf);
      var P0 :| Reaches(ops, ws, usable, P0, goal) && ValidIds(ops, P0) && leaf == Follow(ops, root, P0);
      FollowPath(ops, root, P0);
      FollowCost(ops, root, P0);
      ReachesShape(ops, ws, usable, P0, goal);
      ReplayReachesGoal(ops, ws, usable, P0, goal);
      assert Search(ops, usable, ws, goal).value == P0;
      forall P | Reaches(ops, ws, usable, P, goal)
        ensures ValidIds(ops, P) && SumCost(ops, P0) <= SumCost(ops, P)
      {
        ReachedIsLeaf(ops, root, usable, P, goal);
        FollowCost(ops, root, P);
        var j :| 0 <= j < |leaves| && leaves[j] == Follow(ops, root, P);
        assert Costs(leaves)[r.value] <= Costs(leaves)[j];
      }
    }
  }

  /** Replaying a valid plan ends in a state satisfying the goal. */
  lemma {:induction false} ReplayReachesGoal(ops: seq<Op>, s: seq<Fact>, usable: seq<nat>, P: seq<nat>, goal: seq<Fact>)
    requires ValidIds(ops, usable) && Reaches(ops, s, usable, P, goal)
    ensures ValidIds(ops, P) && Holds(goal, Replay(ops, s, P))
    decreases |P|
  {
    ReachesShape(ops, s, usable, P, goal);
    var next := Apply(s, ops[P[0]].eff);
    if Holds(goal, next) {
      assert P[1..] == [];
    } else {
      RemoveValidIds(ops, usable, P[0]);
      ReplayReachesGoal(ops, next, Remove(usable, P[0]), P[1..], goal);
    }
  }
}
