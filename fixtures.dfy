/** The constant precondition and effect tables of the concrete actions, with
    the costs their `reset` sets, and what the search makes of small catalogues
    of them. */
module Fixtures {
  import opened Facts
  import opened Planning
  import opened WorldKnowledge

  /** `AimAtPlayer`. `reset` sets cost -1; its procedural check then sets 0. */
  function AimAtPlayer(cost: int): Op
  {
    Op([Fact("hasItem", true), Fact("aimingAtPlayer", false)], [Fact("aimingAtPlayer", true)], cost)
  }

  /** `UseItem`, cost -1. */
  const UseItem: Op :=
    Op([Fact("hasItem", true), Fact("aimingAtPlayer", true)],
       [Fact("hasItem", false), Fact("aimingAtPlayer", false), Fact("hasUsedItem", true)], -1)

  /** `GetItem`, cost 1. */
  const GetItem: Op := Op([Fact("hasItem", false)], [Fact("hasItem", true)], 1)

  /** `ChasePlayer`, cost 1 as `reset` leaves it. */
  const ChasePlayer: Op :=
    Op([Fact("foundPlayer", true), Fact("attackPlayer", false)],
       [Fact("foundPlayer", false), Fact("attackPlayer", true)], 1)

  /** `PatrolToPoint`, cost 1. */
  const PatrolToPoint: Op := Op([Fact("isPatrolling", false)], [Fact("isPatrolling", true)], 1)

  /** From the fact store a fresh agent starts with, patrolling is planned as
      the single action, and the state it leaves holds the new pair beside the
      old one. */
  lemma PatrolFromInitialFacts()
    ensures Search([PatrolToPoint], [0], InitialFacts, [Fact("isPatrolling", true)]) == Some([0])
    ensures Replay([PatrolToPoint], InitialFacts, [0]) == InitialFacts + [Fact("isPatrolling", true)]
  {
    var ops := [PatrolToPoint];
    var goal := [Fact("isPatrolling", true)];
    var root := Root(InitialFacts);
    var after := InitialFacts + [Fact("isPatrolling", true)];
    assert Fact("isPatrolling", true) !in InitialFacts;
    assert Apply(InitialFacts, ops[0].eff) == after by {
      assert ops[0].eff[..0] == [];
    }
    var c := Child(ops, root, 0);
    assert c.state == after;
    assert Holds(goal, after);
    assert Branch(ops, root, [0], goal, 0) == [c];
    assert LeavesOf(ops, root, [0], goal) == [c];
    assert FirstCheapest(Costs([c])) == Some(0);
    assert PathOf(c) == [0] by {
      RootPath(InitialFacts);
    }
    assert Replay(ops, after, []) == after;
  }

  /** The pair test of `populateState`: patrolling again from that state is
      still possible (the false pair is still there), and this time the pair
      applied is already present, so every "isPatrolling" pair collapses into it. */
  lemma PatrolTwice()
    ensures Holds(PatrolToPoint.pre, InitialFacts + [Fact("isPatrolling", true)])
    ensures Apply(InitialFacts + [Fact("isPatrolling", true)], PatrolToPoint.eff) ==
      InitialFacts[..7] + [Fact("isPatrolling", true)]
  {
    var s := InitialFacts + [Fact("isPatrolling", true)];
    var change := Fact("isPatrolling", true);
    assert PatrolToPoint.eff[..0] == [];
    assert change in s;
    assert RemoveKey(s, "isPatrolling") == InitialFacts[..7] by {
      RemoveKeyFacts(s);
    }
  }

  /** The state the aiming scenario starts from. */
  const Armed: seq<Fact> := [Fact("hasItem", true), Fact("aimingAtPlayer", false)]

  /** Using the item after aiming: the pairs `populateState` leaves. */
  lemma UseAfterAim()
    ensures Apply(Aimed, UseItem.eff) == Used
  {
    var eff := UseItem.eff;
    assert eff[..1][..0] == [];
    assert eff[..2][..1] == eff[..1];
    assert eff[..2] == eff[..|eff| - 1];
    assert Apply(Aimed, eff[..1]) == ApplyOne(Aimed, eff[0]);
    DropHasItem();
    assert Apply(Aimed, eff[..2]) == ApplyOne(Dropped, eff[1]);
    StopAiming();
    assert Apply(Aimed, eff) == ApplyOne(Lowered, eff[2]);
    MarkUsed();
  }

  /** The intermediate states of `UseAfterAim`. */
  const Dropped: seq<Fact> :=
    [Fact("hasItem", true), Fact("aimingAtPlayer", false), Fact("aimingAtPlayer", true), Fact("hasItem", false)]
  const Lowered: seq<Fact> := [Fact("hasItem", true), Fact("hasItem", false), Fact("aimingAtPlayer", false)]

  lemma DropHasItem()
    ensures ApplyOne(Aimed, Fact("hasItem", false)) == Dropped
  {
    assert Fact("hasItem", false) !in Aimed;
  }

  lemma StopAiming()
    ensures ApplyOne(Dropped, Fact("aimingAtPlayer", false)) == Lowered
  {
    var k := "aimingAtPlayer";
    var s1 := Dropped;
    assert RemoveKey(s1[4..], k) == [];
    assert RemoveKey(s1[3..], k) == [Fact("hasItem", false)];
    assert RemoveKey(s1[2..], k) == RemoveKey(s1[3..], k);
    assert RemoveKey(s1[1..], k) == RemoveKey(s1[2..], k);
    assert RemoveKey(s1, k) == [Fact("hasItem", true), Fact("hasItem", false)];
  }

  lemma MarkUsed()
    ensures ApplyOne(Lowered, Fact("hasUsedItem", true)) == Used
  {
    assert Fact("hasUsedItem", true) !in Lowered;
  }

  /** The aiming catalogue, with aiming at its checked cost, and its goal. */
  const AimUse: seq<Op> := [AimAtPlayer(0), UseItem]
  const ItemUsed: seq<Fact> := [Fact("hasUsedItem", true)]

  /** The pairs left after aiming, then after using the item. */
  const Aimed: seq<Fact> := Armed + [Fact("aimingAtPlayer", true)]
  const Used: seq<Fact> :=
    [Fact("hasItem", true), Fact("hasItem", false), Fact("aimingAtPlayer", false), Fact("hasUsedItem", true)]

  /** The node reached by aiming from the armed state. */
  lemma AimChild()
    ensures Child(AimUse, Root(Armed), 0).state == Aimed
    ensures !Holds(ItemUsed, Aimed)
  {
    assert AimUse[0].eff[..0] == [];
    assert ItemUsed[0] !in Aimed;
  }

  /** Below the aiming node the only leaf is the one reached by using the item. */
  lemma UseLeaves(c1: Node)
    requires c1.state == Aimed
    ensures LeavesOf(AimUse, c1, [1], ItemUsed) == [Child(AimUse, c1, 1)]
    ensures Child(AimUse, c1, 1).state == Used
  {
    UseAfterAim();
    assert Holds(AimUse[1].pre, Aimed);
    assert Branch(AimUse, c1, [1], ItemUsed, 1) == [Child(AimUse, c1, 1)];
  }

  /** The leaves of the whole search: using the item first is not possible. */
  lemma AimUseLeaves()
    ensures LeavesOf(AimUse, Root(Armed), [0, 1], ItemUsed) ==
      [Child(AimUse, Child(AimUse, Root(Armed), 0), 1)]
  {
    var root := Root(Armed);
    var c1 := Child(AimUse, root, 0);
    AimChild();
    UseLeaves(c1);
    assert Remove([0, 1], 0) == [1];
    assert Branch(AimUse, root, [0, 1], ItemUsed, 0) == [Child(AimUse, c1, 1)];
    assert AimUse[1].pre[1] !in Armed;
    assert Branch(AimUse, root, [0, 1], ItemUsed, 1) == [];
  }

  /** Holding an item, with aiming (at its checked cost 0) and using the item
      usable, the plan is aim then use, at total cost -1. Replaying it shows
      both sides of the pair test: the new "hasItem" false pair sits beside the
      old true one, while the "aimingAtPlayer" false pair, already present,
      collapses its name to that one pair. */
  lemma AimThenUse()
    ensures Search(AimUse, [0, 1], Armed, ItemUsed) == Some([0, 1])
    ensures SumCost(AimUse, [0, 1]) == -1
    ensures Replay(AimUse, Armed, [0, 1]) == Used
  {
    var root := Root(Armed);
    var c1 := Child(AimUse, root, 0);
    var c2 := Child(AimUse, c1, 1);
    AimUseLeaves();
    AimChild();
    UseLeaves(c1);
    assert FirstCheapest(Costs([c2])) == Some(0);
    assert PathOf(c2) == [0, 1] by {
      RootPath(Armed);
    }
    assert Apply(Armed, AimUse[0].eff) == Aimed;
    assert Apply(Aimed, AimUse[1].eff) == Used;
    assert Replay(AimUse, Used, []) == Used;
  }

  /** A goal that already holds still needs an action: holding an item, the
      item cannot be fetched again, so no plan is found, and none exists. */
  lemma NothingToFetch()
    ensures Search([GetItem], [0], [Fact("hasItem", true)], [Fact("hasItem", true)]).None?
    ensures forall P :: !Reaches([GetItem], [Fact("hasItem", true)], [0], P, [Fact("hasItem", true)])
  {
    var ops := [GetItem];
    var goal := [Fact("hasItem", true)];
    var root := Root(goal);
    assert ops[0].pre[0] !in goal;
    assert LeavesOf(ops, root, [0], goal) == [];
    SearchCorrect(ops, [0], goal, goal);
  }

  /** The state in which the player has been seen but not yet attacked, and
      the attack goal the goal table names first. */
  const Sighted: seq<Fact> := [Fact("foundPlayer", true), Fact("attackPlayer", false)]
  const AttackGoal: seq<Fact> := [Fact(GoalNames[CHASE_PLAYER], true)]

  /** With the player found, chasing is the one-action plan for the attack
      goal. Neither effect pair is present beforehand, so both are added beside
      the pairs of opposite value. */
  lemma ChaseFoundPlayer()
    ensures Search([ChasePlayer], [0], Sighted, AttackGoal) == Some([0])
    ensures Replay([ChasePlayer], Sighted, [0]) ==
      Sighted + [Fact("foundPlayer", false), Fact("attackPlayer", true)]
  {
    var ops := [ChasePlayer];
    var root := Root(Sighted);
    var mid := Sighted + [Fact("foundPlayer", false)];
    var after := mid + [Fact("attackPlayer", true)];
    assert ops[0].eff[..1][..0] == [];
    assert Fact("foundPlayer", false) !in Sighted;
    assert Apply(Sighted, ops[0].eff[..1]) == mid;
    assert ops[0].eff[..2] == ops[0].eff;
    assert Fact("attackPlayer", true) !in mid;
    assert Apply(Sighted, ops[0].eff) == after;
    var c := Child(ops, root, 0);
    assert c.state == after;
    assert AttackGoal[0] == after[3];
    assert Holds(AttackGoal, after);
    assert Branch(ops, root, [0], AttackGoal, 0) == [c];
    assert LeavesOf(ops, root, [0], AttackGoal) == [c];
    assert FirstCheapest(Costs([c])) == Some(0);
    assert PathOf(c) == [0] by {
      RootPath(Sighted);
    }
    assert Replay(ops, after, []) == after;
  }

  /** Which pairs of that state are kept when "isPatrolling" is dropped. */
  lemma RemoveKeyFacts(s: seq<Fact>)
    requires s == InitialFacts + [Fact("isPatrolling", true)]
    ensures RemoveKey(s, "isPatrolling") == InitialFacts[..7]
  {
    assert s == InitialFacts[..7] + [Fact("isPatrolling", false), Fact("isPatrolling", true)];
    RemoveKeyOthers(InitialFacts[..7], [Fact("isPatrolling", false), Fact("isPatrolling", true)], "isPatrolling");
  }

  /** Dropping a name that `a` does not mention and that is the only name of `b`. */
  lemma {:induction false} RemoveKeyOthers(a: seq<Fact>, b: seq<Fact>, k: string)
    requires forall f :: f in a ==> f.key != k
    requires forall f :: f in b ==> f.key == k
    ensures RemoveKey(a + b, k) == a
    decreases |a| + |b|
  {
    if a != [] {
      assert (a + b)[1..] == a[1..] + b;
      RemoveKeyOthers(a[1..], b, k);
    } else if b != [] {
      assert (a + b)[1..] == [] + b[1..];
      RemoveKeyOthers([], b[1..], k);
    }
  }
}
