/** The agent's fact store and goal-insistence table (`CurrentWorldKnowledge`). */
module WorldKnowledge {
  import opened Facts
  import opened Selection

  /** A goal: the fact name to reach, its desired value and its current insistence. */
  datatype Goal = Goal(name: string, desired: bool, insistence: int)

  /** Positions of the four goals in the goal table (the private `GOALS` enum). */
  const CHASE_PLAYER: nat := 0
  const FIND_ITEM: nat := 1
  const CALL_PLAYER_SIGHTED: nat := 2
  const PATROL: nat := 3

  const GoalNames: seq<string> := ["attackPlayer", "hasItem", "moveToPlayerSighting", "isPatrolling"]

  /** The facts the constructor creates, in insertion order, all false. */
  const InitialFacts: seq<Fact> := [
    Fact("foundPlayer", false), Fact("attackPlayer", false),
    Fact("aimingAtPlayer", false), Fact("hasItem", false), Fact("hasUsedItem", false),
    Fact("RECEIVECALL_playerSighting", false), Fact("moveToPlayerSighting", false),
    Fact("isPatrolling", false)]

  /** The goal table the constructor creates: every goal wants its fact true, insistence -1. */
  const InitialGoals: seq<Goal> := [
    Goal("attackPlayer", true, -1), Goal("hasItem", true, -1),
    Goal("moveToPlayerSighting", true, -1), Goal("isPatrolling", true, -1)]

  /** The insistence column of a goal table. */
  function Scores(goals: seq<Goal>): seq<int>
  {
    Column(goals, (g: Goal) => g.insistence)
  }

  /** Insistences of the goals not named "isPatrolling", in table order. */
  function OtherScores(goals: seq<Goal>): seq<int>
  {
    if goals == [] then []
    else
      var last := goals[|goals| - 1];
      OtherScores(goals[..|goals| - 1]) + (if last.name == "isPatrolling" then [] else [last.insistence])
  }

  /** The four insistences a recalculation assigns, computed from the store as it
      was before the recalculation and from the number of known item locations. */
  function Insistences(facts: seq<Fact>, itemCount: nat): seq<int>
  {
    var chase := if Fact("foundPlayer", true) in facts then 99 else -1;
    var find := if itemCount > 0 && Fact("hasItem", true) !in facts then 66 else -1;
    var call := if Fact("RECEIVECALL_playerSighting", true) in facts then 90 else -1;
    var patrol := if MinFrom([chase, find, call], INT32_MAX) <= 1 then 13 else 0;
    [chase, find, call, patrol]
  }

  /** The goal a recalculation followed by the strict running-maximum selection
      picks, as a priority order: a sighted player, then a heard call, then a
      known item the agent does not hold, then patrolling. */
  function GoalPriority(facts: seq<Fact>, itemCount: nat): nat
  {
    if Fact("foundPlayer", true) in facts then CHASE_PLAYER
    else if Fact("RECEIVECALL_playerSighting", true) in facts then CALL_PLAYER_SIGHTED
    else if itemCount > 0 && Fact("hasItem", true) !in facts then FIND_ITEM
    else PATROL
  }

  /** The patrol goal always scores at least 0, above the selection's floor of -1,
      and the selection picks the goal `GoalPriority` names. */
  lemma InsistenceChoice(facts: seq<Fact>, itemCount: nat)
    ensures Insistences(facts, itemCount)[PATROL] >= 0
    ensures FirstMaxAbove(Insistences(facts, itemCount), -1) == Some(GoalPriority(facts, itemCount))
  {
    var s := Insistences(facts, itemCount);
    var r := FirstMaxAbove(s, -1);
    var k := GoalPriority(facts, itemCount);
    assert forall j :: 0 <= j < 4 && j != k ==> s[j] < s[k];
    assert r.Some?;
  }

  /** With the constructor's facts and no known items, the agent patrols. */
  lemma InitialGoalIsPatrol()
    ensures FirstMaxAbove(Insistences(InitialFacts, 0), -1) == Some(PATROL)
    ensures GoalNames[PATROL] == "isPatrolling"
  {
    InsistenceChoice(InitialFacts, 0);
  }

  /** Once the player is sighted, the agent chases whatever else it knows. */
  lemma FoundPlayerGoalIsAttack(facts: seq<Fact>, itemCount: nat)
    requires Fact("foundPlayer", true) in facts
    ensures FirstMaxAbove(Insistences(facts, itemCount), -1) == Some(CHASE_PLAYER)
    ensures GoalNames[CHASE_PLAYER] == "attackPlayer"
  {
    InsistenceChoice(facts, itemCount);
  }

  /** Reading "hasItem" with state false after it has been vivified answers whether the
      store did not hold it as true. */
  lemma VivifiedFalse(w: seq<Fact>, k: string)
    requires UniqueKeys(w)
    ensures Fact(k, false) in Vivify(w, k) <==> Fact(k, true) !in w
  {
    if Fact(k, false) in w && Fact(k, true) in w {
      SameKeySameFact(w, Fact(k, false), Fact(k, true));
    }
    if !HasKey(w, k) {
      assert Fact(k, true) !in w;
    } else if Fact(k, true) !in w {
      var i :| 0 <= i < |w| && w[i].key == k;
      assert w[i] == Fact(k, false);
    }
  }

  /** One more step of `OtherScores` over a prefix of the table. */
  lemma OtherScoresStep(goals: seq<Goal>, g: nat)
    requires g < |goals|
    ensures OtherScores(goals[..g + 1]) == OtherScores(goals[..g])
      + (if goals[g].name == "isPatrolling" then [] else [goals[g].insistence])
  {
    assert goals[..g + 1][..g] == goals[..g];
  }

  /** The insistences a goal table with the fixed names offers the patrol rule. */
  lemma OtherScoresOfTable(goals: seq<Goal>)
    requires |goals| == 4 && forall i :: 0 <= i < 4 ==> goals[i].name == GoalNames[i]
    ensures OtherScores(goals) == [goals[0].insistence, goals[1].insistence, goals[2].insistence]
  {
    assert goals[0].name != "isPatrolling" by { assert goals[0].name[0] == 'a'; }
    assert goals[1].name != "isPatrolling" by { assert |goals[1].name| == 7; }
    assert goals[2].name != "isPatrolling" by { assert |goals[2].name| == 20; }
    assert goals[3].name == "isPatrolling";
    var g1, g2, g3 := goals[..1], goals[..2], goals[..3];
    assert g1[..0] == [] && g2[..1] == g1 && g3[..2] == g2 && goals[..3] == g3;
    assert OtherScores(g1) == [goals[0].insistence];
    assert OtherScores(g2) == [goals[0].insistence, goals[1].insistence];
    assert OtherScores(g3) == [goals[0].insistence, goals[1].insistence, goals[2].insistence];
  }

  /** The fact store after `EditDataValue(nd)`: the first entry with the same name
      (if any) is removed, then `nd` is added. */
  function SetFact(s: seq<Fact>, nd: Fact): seq<Fact>
  {
    match FirstWithKey(s, nd.key)
    case None => SetAdd(s, nd)
    case Some(d) => SetAdd(Remove(s, d), nd)
  }

  /** On a store with unique names, `SetFact` replaces the value of one name:
      `nd` is stored, it is the only entry with its name, names stay unique, and
      entries with other names are unchanged. */
  lemma SetFactSpec(s: seq<Fact>, nd: Fact)
    requires UniqueKeys(s)
    ensures UniqueKeys(SetFact(s, nd))
    ensures nd in SetFact(s, nd)
    ensures forall f :: f in SetFact(s, nd) && f.key == nd.key ==> f == nd
    ensures forall f: Fact :: f.key != nd.key ==> (f in SetFact(s, nd) <==> f in s)
  {
    match FirstWithKey(s, nd.key)
    case None =>
      UniqueKeysSnoc(s, nd);
    case Some(d) =>
      var t := Remove(s, d);
      RemoveUniqueKeys(s, d);
      if HasKey(t, nd.key) {
        var i :| 0 <= i < |t| && t[i].key == nd.key;
        assert t[i] in t;
        SameKeySameFact(s, t[i], d);
      }
      assert nd !in t;
      UniqueKeysSnoc(t, nd);
  }

  /** Setting the same fact twice leaves the store as one setting does. */
  lemma SetFactIdempotent(s: seq<Fact>, nd: Fact)
    requires UniqueKeys(s)
    ensures HasKey(SetFact(s, nd), nd.key)
    ensures SetFact(SetFact(s, nd), nd) == SetFact(s, nd)
  {
    SetFactSpec(s, nd);
    var r := SetFact(s, nd);
    var t := match FirstWithKey(s, nd.key) case None => s case Some(d) => Remove(s, d);
    assert nd !in t && r == t + [nd];
    assert r[|t|] == nd;
    if HasKey(t, nd.key) {
      var i :| 0 <= i < |t| && t[i].key == nd.key;
      assert t[i] in r;
    }
    forall j | 0 <= j < |t| ensures r[j].key != nd.key {
      assert r[j] == t[j];
    }
    FirstWithKeyAt(r, nd.key, |t|);
    RemoveAppended(t, nd);
  }

  /** The item list after `RemoveItemLocation(x)` has scanned it from index `i` on:
      an entry equal to `x` is removed in place and the index still moves on, so the
      entry that slid into the freed position is not examined. */
  function RemoveScan(l: seq<ObjectId>, x: ObjectId, i: nat): seq<ObjectId>
    decreases |l| - i
  {
    if i >= |l| then l
    else if l[i] == x then RemoveScan(l[..i] + l[i + 1..], x, i + 1)
    else RemoveScan(l, x, i + 1)
  }

  /** Scanning a list that does not hold `x` changes nothing. */
  lemma {:induction false} RemoveScanAbsent(l: seq<ObjectId>, x: ObjectId, i: nat)
    requires x !in l
    ensures RemoveScan(l, x, i) == l
    decreases |l| - i
  {
    if i < |l| {
      RemoveScanAbsent(l, x, i + 1);
    }
  }

  /** On a duplicate-free list the scan removes exactly the entry `x` and keeps
      the others in order; a list without `x` is left as it is. */
  lemma RemoveScanUnique(l: seq<ObjectId>, x: ObjectId)
    requires NoDup(l)
    ensures x !in l ==> RemoveScan(l, x, 0) == l
    ensures forall i :: 0 <= i < |l| && l[i] == x ==> RemoveScan(l, x, 0) == l[..i] + l[i + 1..]
  {
    if x !in l {
      RemoveScanAbsent(l, x, 0);
    } else {
      var i :| 0 <= i < |l| && l[i] == x;
      RemoveScanFrom(l, x, i, 0);
      var rest := l[..i] + l[i + 1..];
      assert x !in rest by {
        forall j | 0 <= j < |rest| ensures rest[j] != x {
          if j < i { assert rest[j] == l[j]; } else { assert rest[j] == l[j + 1]; }
        }
      }
      RemoveScanAbsent(rest, x, i + 1);
      forall k | 0 <= k < |l| && l[k] == x ensures k == i { }
    }
  }

  /** Entries before the first `x` are stepped over. */
  lemma {:induction false} RemoveScanFrom(l: seq<ObjectId>, x: ObjectId, i: nat, j: nat)
    requires i < |l| && j <= i && forall k :: 0 <= k < i ==> l[k] != x
    ensures RemoveScan(l, x, j) == RemoveScan(l, x, i)
    decreases i - j
  {
    if j < i {
      RemoveScanFrom(l, x, i, j + 1);
    }
  }

  /** With `x` listed twice in a row, the second copy slides into the freed
      position and is skipped. */
  lemma RemoveScanSkips(x: ObjectId)
    ensures RemoveScan([x, x], x, 0) == [x]
  {
    assert [x, x][..0] + [x, x][1..] == [x];
  }

  /** Adding an item twice is adding it once. */
  lemma AddIdempotent(l: seq<ObjectId>, x: ObjectId)
    ensures SetAdd(SetAdd(l, x), x) == SetAdd(l, x)
    ensures x in SetAdd(l, x)
  {
  }

  class CurrentWorldKnowledge {
    var worldData: seq<Fact>
    var goals: seq<Goal>
    var currentGoal: Option<Goal>
    var itemLocations: seq<ObjectId>

    /** The store keeps one entry per fact name and the fixed four-goal table. */
    ghost predicate Valid()
      reads this
    {
      UniqueKeys(worldData) &&
      |goals| == 4 &&
      forall i :: 0 <= i < 4 ==> goals[i].name == GoalNames[i] && goals[i].desired
    }

    constructor ()
      ensures Valid()
      ensures worldData == InitialFacts && goals == InitialGoals
      ensures itemLocations == [] && currentGoal == None
      ensures |worldData| == 8 && forall f :: f in worldData ==> !f.value
      ensures forall i :: 0 <= i < 4 ==> goals[i].insistence == -1
    {
      worldData := InitialFacts;
      goals := InitialGoals;
      currentGoal := None;
      itemLocations := [];
    }

    /** Add a sighted item unless it is already listed. */
    method AddItemLocation(item: ObjectId)
      modifies this`itemLocations
      ensures itemLocations == SetAdd(old(itemLocations), item)
      ensures item in itemLocations
      ensures NoDup(old(itemLocations)) ==> NoDup(itemLocations)
    {
      for i := 0 to |itemLocations|
        invariant forall j :: 0 <= j < i ==> itemLocations[j] != item
      {
        if itemLocations[i] == item {
          return;
        }
      }
      itemLocations := itemLocations + [item];
    }

    /** Remove a sighted item: an index loop that deletes matching entries in place. */
    method RemoveItemLocation(item: ObjectId)
      modifies this`itemLocations
      ensures itemLocations == RemoveScan(old(itemLocations), item, 0)
    {
      var i := 0;
      while i < |itemLocations|
        invariant RemoveScan(itemLocations, item, i) == RemoveScan(old(itemLocations), item, 0)
        decreases |itemLocations| - i
      {
        if itemLocations[i] == item {
          itemLocations := itemLocations[..i] + itemLocations[i + 1..];
        }
        i := i + 1;
      }
    }

    /** `HashSet.Remove` on the fact store. */
    method RemoveData(removalData: Fact) returns (removed: bool)
      requires Valid()
      modifies this`worldData
      ensures Valid()
      ensures removed == (removalData in old(worldData))
      ensures worldData == Remove(old(worldData), removalData)
    {
      removed := removalData in worldData;
      RemoveUniqueKeys(worldData, removalData);
      worldData := Remove(worldData, removalData);
    }

    /** Set a fact: replace the entry with the same name, or add a new one.
        Returns whether an entry with that name existed. */
    method EditDataValue(newData: Fact) returns (existed: bool)
      requires Valid()
      modifies this`worldData
      ensures Valid()
      ensures existed == HasKey(old(worldData), newData.key)
      ensures worldData == SetFact(old(worldData), newData)
    {
      for i := 0 to |worldData|
        invariant worldData == old(worldData)
        invariant forall j :: 0 <= j < i ==> worldData[j].key != newData.key
      {
        var data := worldData[i];
        if newData.key == data.key {
          FirstWithKeyAt(worldData, newData.key, i);
          SetFactSpec(worldData, newData);
          var removed := RemoveData(data);
          if removed {
            worldData := SetAdd(worldData, newData);
            return true;
          }
        }
      }
      assert !HasKey(worldData, newData.key);
      SetFactSpec(worldData, newData);
      worldData := SetAdd(worldData, newData);
      return false;
    }

    /** Read a fact. A known name answers whether the pair (fact, state) is stored;
        an unknown name is created as false and the answer is false. */
    method GetFactState(fact: string, state: bool) returns (b: bool)
      requires Valid()
      modifies this`worldData
      ensures Valid()
      ensures b == (Fact(fact, state) in old(worldData))
      ensures worldData == Vivify(old(worldData), fact)
    {
      for i := 0 to |worldData|
        invariant forall j :: 0 <= j < i ==> worldData[j].key != fact
      {
        if worldData[i].key == fact {
          return Fact(fact, state) in worldData;
        }
      }
      worldData := SetAdd(worldData, Fact(fact, false));
      return false;
    }

    /** Recalculate the four insistences from the current facts. The reads of
        "foundPlayer", "hasItem" and "RECEIVECALL_playerSighting" create those
        facts as false when they are unknown. */
    method DetermineGoalsInsistence()
      requires Valid()
      modifies this`worldData, this`goals
      ensures Valid()
      ensures worldData == Vivify(Vivify(Vivify(old(worldData), "foundPlayer"), "hasItem"), "RECEIVECALL_playerSighting")
      ensures Scores(goals) == Insistences(old(worldData), |itemLocations|)
    {
      ghost var w0 := worldData;
      var playerFound := GetFactState("foundPlayer", true);
      var hasItem := GetFactState("hasItem", true);
      ghost var w1 := Vivify(w0, "foundPlayer");
      ghost var w2 := worldData;
      ghost var target := Insistences(w0, |itemLocations|);
      VivifiedFalse(w1, "hasItem");
      assert HasKey(w2, "hasItem");
      assert Vivify(w2, "hasItem") == w2;
      assert Fact("hasItem", false) in w2 <==> Fact("hasItem", true) !in w0;
      assert Fact("RECEIVECALL_playerSighting", true) in w2 <==> Fact("RECEIVECALL_playerSighting", true) in w0;
      for i := 0 to |goals|
        invariant Valid()
        invariant i <= CALL_PLAYER_SIGHTED ==> worldData == w2
        invariant i > CALL_PLAYER_SIGHTED ==> worldData == Vivify(w2, "RECEIVECALL_playerSighting")
        invariant forall j :: 0 <= j < i ==> goals[j].insistence == target[j]
      {
        var insistence := 0;
        if i == CHASE_PLAYER {
          insistence := -1;
          if playerFound { insistence := insistence + 100; }
          UpdateGoalInsistence(goals[i], insistence, i);
        } else if i == FIND_ITEM {
          insistence := -1;
          if |itemLocations| > 0 {
            var noItem := GetFactState("hasItem", false);
            if noItem { insistence := 66; }
          }
          UpdateGoalInsistence(goals[i], insistence, i);
        } else if i == CALL_PLAYER_SIGHTED {
          insistence := -1;
          var called := GetFactState("RECEIVECALL_playerSighting", true);
          if called { insistence := 90; }
          UpdateGoalInsistence(goals[i], insistence, i);
        } else if i == PATROL {
          var minInsistence := MinOtherInsistence();
          OtherScoresOfTable(goals);
          if minInsistence <= 1 { insistence := insistence + 13; }
          UpdateGoalInsistence(goals[i], insistence, i);
        }
      }
    }

    /** The smallest insistence among the goals other than patrolling, starting
        from `Int32.MaxValue` (the inner loop of the patrol case). */
    method MinOtherInsistence() returns (minInsistence: int)
      ensures minInsistence == MinFrom(OtherScores(goals), INT32_MAX)
    {
      var table := goals;
      minInsistence := INT32_MAX;
      for g := 0 to |table|
        invariant minInsistence == MinFrom(OtherScores(table[..g]), INT32_MAX)
      {
        OtherScoresStep(table, g);
        if table[g].name == "isPatrolling" {
          assert OtherScores(table[..g]) + [] == OtherScores(table[..g]);
          continue;
        }
        MinFromSnoc(OtherScores(table[..g]), table[g].insistence, INT32_MAX);
        if table[g].insistence < minInsistence { minInsistence := table[g].insistence; }
      }
      assert table[..|table|] == table;
    }

    /** The selection loop of `DetermineNewGoal`: a running maximum from -1 where
        only a strictly greater insistence replaces the current goal. */
    method SelectGoal()
      modifies this`currentGoal
      ensures FirstMaxAbove(Scores(goals), -1).None? ==> currentGoal == old(currentGoal)
      ensures FirstMaxAbove(Scores(goals), -1).Some? ==>
        currentGoal == Some(goals[FirstMaxAbove(Scores(goals), -1).value])
    {
      var table := goals;
      ghost var scores := Scores(table);
      var max := -1;
      ghost var best: Option<nat> := None;
      for i := 0 to |table|
        invariant best == FirstMaxAbove(scores[..i], -1)
        invariant best.None? ==> max == -1 && currentGoal == old(currentGoal)
        invariant best.Some? ==> best.value < i && max == scores[best.value] && currentGoal == Some(table[best.value])
      {
        assert scores[..i + 1] == scores[..i] + [scores[i]];
        FirstMaxAboveSnoc(scores[..i], scores[i], -1);
        if table[i].insistence > max {
          max := table[i].insistence;
          currentGoal := Some(table[i]);
          best := Some(i);
        }
      }
      assert scores[..|table|] == scores;
    }

    /** Recalculate the insistences and pick the goal with the strictly highest
        one (first in table order on ties); the result is that goal's single
        (name, desired value) pair. */
    method DetermineNewGoal() returns (output: seq<Fact>)
      requires Valid()
      modifies this`worldData, this`goals, this`currentGoal
      ensures Valid()
      ensures worldData == Vivify(Vivify(Vivify(old(worldData), "foundPlayer"), "hasItem"), "RECEIVECALL_playerSighting")
      ensures Scores(goals) == Insistences(old(worldData), |itemLocations|)
      ensures currentGoal == Some(goals[GoalPriority(old(worldData), |itemLocations|)])
      ensures output == [Fact(currentGoal.value.name, currentGoal.value.desired)]
    {
      DetermineGoalsInsistence();
      SelectGoal();
      InsistenceChoice(old(worldData), |itemLocations|);
      output := [Fact(currentGoal.value.name, currentGoal.value.desired)];
    }

    /** Overwrite the insistence of the goal at `index`, keeping the name and desired value of `goal`. */
    method UpdateGoalInsistence(goal: Goal, newInsistence: int, index: nat)
      requires index < |goals|
      modifies this`goals
      ensures goals == old(goals)[index := Goal(goal.name, goal.desired, newInsistence)]
    {
      goals := goals[index := Goal(goal.name, goal.desired, newInsistence)];
    }
  }
}
