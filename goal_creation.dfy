/** The two-goal selector the agent calls before planning (`GoalCreation`):
    score "chase the player" and "patrol", then pick the strictly highest score. */
module GoalSelection {
  import opened Facts
  import opened Selection
  import opened WorldKnowledge

  /** An entry of the goal-insistence set: a goal name and its score. */
  datatype Score = Score(goal: string, insistence: int)

  /** Positions in the `GOALS` enum; a position past them matches no case of the switch. */
  const GOAL_CHASE: nat := 0
  const GOAL_PATROL: nat := 1

  /** The goal list `createGoalState` builds, in insertion order. */
  const StandardGoals: seq<Fact> := [Fact("foundPlayer", true), Fact("isPatrolling", true)]

  /** The score column of the goal-insistence set. */
  function Values(s: seq<Score>): seq<int>
  {
    Column(s, (e: Score) => e.insistence)
  }

  /** The goal-insistence set after the first `i` rounds of the scoring loop.
      Chase scores -1, plus 100 when the player was found; patrol scores 100
      when the smallest score recorded so far (from `Int32.MaxValue`) is at
      most 1, else 0; any later position is not scored. */
  function ScoresUpTo(goalList: seq<Fact>, playerFound: bool, i: nat): seq<Score>
    requires i <= |goalList|
  {
    if i == 0 then []
    else
      var prev := ScoresUpTo(goalList, playerFound, i - 1);
      var name := goalList[i - 1].key;
      if i - 1 == GOAL_CHASE then
        SetAdd(prev, Score(name, if playerFound then -1 + 100 else -1))
      else if i - 1 == GOAL_PATROL then
        SetAdd(prev, Score(name, if MinFrom(Values(prev), INT32_MAX) <= 1 then 100 else 0))
      else prev
  }

  /** The pair `DetermineGoal` returns: the first strictly highest-scoring goal
      above -1 and whether the list holds that goal with value true; ("", false)
      when no score exceeds -1. */
  function Decide(goalList: seq<Fact>, playerFound: bool): (string, bool)
  {
    var scores := ScoresUpTo(goalList, playerFound, |goalList|);
    match FirstMaxAbove(Values(scores), -1)
    case None => ("", false)
    case Some(k) => (scores[k].goal, Fact(scores[k].goal, true) in goalList)
  }

  /** What the scores come to: a found player makes the first goal win (99
      against patrol's 0); otherwise the second goal wins (100 against -1), and
      with fewer than two goals nothing exceeds -1. */
  lemma DecideSpec(goalList: seq<Fact>, playerFound: bool)
    ensures Decide(goalList, playerFound) ==
      if |goalList| == 0 then ("", false)
      else if playerFound then (goalList[0].key, Fact(goalList[0].key, true) in goalList)
      else if |goalList| == 1 then ("", false)
      else (goalList[1].key, Fact(goalList[1].key, true) in goalList)
  {
    var chase := if playerFound then 99 else -1;
    if |goalList| >= 1 {
      assert ScoresUpTo(goalList, playerFound, 1) == [Score(goalList[0].key, chase)];
      assert Values([Score(goalList[0].key, chase)]) == [chase];
      assert MinFrom([chase], INT32_MAX) == chase by {
        assert [chase][..0] == [];
      }
    }
    if |goalList| >= 2 {
      var patrol := if chase <= 1 then 100 else 0;
      var two := [Score(goalList[0].key, chase), Score(goalList[1].key, patrol)];
      assert ScoresUpTo(goalList, playerFound, 2) == two;
      ScoresStopAtTwo(goalList, playerFound, |goalList|);
      var values := Values(two);
      assert values == [chase, patrol];
      var r := FirstMaxAbove(values, -1);
      if playerFound {
        assert r == Some(0) by {
          assert values[1] < values[0];
        }
      } else {
        assert r == Some(1) by {
          assert values[0] < values[1];
        }
      }
    } else if |goalList| == 1 && !playerFound {
      assert FirstMaxAbove([-1], -1) == None;
    }
  }

  /** Rounds past the second one add nothing. */
  lemma {:induction false} ScoresStopAtTwo(goalList: seq<Fact>, playerFound: bool, i: nat)
    requires 2 <= i <= |goalList|
    ensures ScoresUpTo(goalList, playerFound, i) == ScoresUpTo(goalList, playerFound, 2)
  {
    if i > 2 {
      ScoresStopAtTwo(goalList, playerFound, i - 1);
    }
  }

  /** With the standard goal list: a found player gives ("foundPlayer", true),
      otherwise ("isPatrolling", true). */
  lemma StandardDecision(playerFound: bool)
    ensures Decide(StandardGoals, playerFound) ==
      if playerFound then ("foundPlayer", true) else ("isPatrolling", true)
  {
    DecideSpec(StandardGoals, playerFound);
  }

  /** The inner loop of the patrol case: the smallest score so far, from `Int32.MaxValue`. */
  method MinScore(goalIValues: seq<Score>) returns (minInsistence: int)
    ensures minInsistence == MinFrom(Values(goalIValues), INT32_MAX)
  {
    ghost var values := Values(goalIValues);
    minInsistence := INT32_MAX;
    for i := 0 to |goalIValues|
      invariant minInsistence == MinFrom(values[..i], INT32_MAX)
    {
      assert values[..i + 1] == values[..i] + [values[i]];
      MinFromSnoc(values[..i], values[i], INT32_MAX);
      if goalIValues[i].insistence < minInsistence {
        minInsistence := goalIValues[i].insistence;
      }
    }
    assert values[..|goalIValues|] == values;
  }

  /** The scoring loop of `DetermineGoal` over the goal list. */
  method ScoreGoals(goalList: seq<Fact>, playerFound: bool) returns (goalIValues: seq<Score>)
    ensures goalIValues == ScoresUpTo(goalList, playerFound, |goalList|)
  {
    goalIValues := [];
    for i := 0 to |goalList|
      invariant goalIValues == ScoresUpTo(goalList, playerFound, i)
    {
      var currentGoal := goalList[i].key;
      var insistence := 0;
      if i == GOAL_CHASE {
        insistence := -1;
        if playerFound { insistence := insistence + 100; }
        goalIValues := SetAdd(goalIValues, Score(currentGoal, insistence));
      } else if i == GOAL_PATROL {
        var minInsistence := MinScore(goalIValues);
        if minInsistence <= 1 { insistence := 100; }
        goalIValues := SetAdd(goalIValues, Score(currentGoal, insistence));
      }
    }
  }

  /** The selection loop of `DetermineGoal`: a running maximum from -1 where only
      a strictly greater score replaces the chosen goal. */
  method Strongest(goalIValues: seq<Score>, goalList: seq<Fact>) returns (goal: string, goalFlag: bool)
    ensures FirstMaxAbove(Values(goalIValues), -1).None? ==> goal == "" && !goalFlag
    ensures FirstMaxAbove(Values(goalIValues), -1).Some? ==>
      var k := FirstMaxAbove(Values(goalIValues), -1).value;
      goal == goalIValues[k].goal && goalFlag == (Fact(goalIValues[k].goal, true) in goalList)
  {
    ghost var values := Values(goalIValues);
    goal := "";
    goalFlag := false;
    var max := -1;
    ghost var best: Option<nat> := None;
    for i := 0 to |goalIValues|
      invariant best == FirstMaxAbove(values[..i], -1)
      invariant best.None? ==> max == -1 && goal == "" && !goalFlag
      invariant best.Some? ==>
        (best.value < i && max == values[best.value] &&
         goal == goalIValues[best.value].goal && goalFlag == (Fact(goal, true) in goalList))
    {
      assert values[..i + 1] == values[..i] + [values[i]];
      FirstMaxAboveSnoc(values[..i], values[i], -1);
      if goalIValues[i].insistence > max {
        max := goalIValues[i].insistence;
        goal := goalIValues[i].goal;
        goalFlag := Fact(goal, true) in goalList;
        best := Some(i);
      }
    }
    assert values[..|goalIValues|] == values;
  }

  class GoalCreation {
    var worldData: CurrentWorldKnowledge

    constructor (worldData: CurrentWorldKnowledge)
      ensures this.worldData == worldData
    {
      this.worldData := worldData;
    }

    /** `DetermineGoal`: read "foundPlayer" and "isPatrolling" (creating them as
        false when unknown), score the goals and pick the strongest. */
    method DetermineGoal(goalList: seq<Fact>) returns (goal: string, goalFlag: bool)
      requires worldData.Valid()
      modifies worldData`worldData
      ensures worldData.Valid()
      ensures worldData.worldData == Vivify(Vivify(old(worldData.worldData), "foundPlayer"), "isPatrolling")
      ensures (goal, goalFlag) == Decide(goalList, Fact("foundPlayer", true) in old(worldData.worldData))
    {
      var playerFound := worldData.GetFactState("foundPlayer", true);
      var isPatrolling := worldData.GetFactState("isPatrolling", true);
      var goalIValues := ScoreGoals(goalList, playerFound);
      goal, goalFlag := Strongest(goalIValues, goalList);
    }

    /** `createGoalState`: the one-pair goal set for the planner. */
    method CreateGoalState() returns (goal: seq<Fact>)
      requires worldData.Valid()
      modifies worldData`worldData
      ensures worldData.Valid()
      ensures worldData.worldData == Vivify(Vivify(old(worldData.worldData), "foundPlayer"), "isPatrolling")
      ensures |goal| == 1
      ensures goal == [Fact(if Fact("foundPlayer", true) in old(worldData.worldData) then "foundPlayer" else "isPatrolling", true)]
    {
      var goalList := SetAdd(SetAdd([], Fact("foundPlayer", true)), Fact("isPatrolling", true));
      assert goalList == StandardGoals;
      var name, flag := DetermineGoal(goalList);
      StandardDecision(Fact("foundPlayer", true) in old(worldData.worldData));
      goal := SetAdd([], Fact(name, flag));
    }
  }
}
