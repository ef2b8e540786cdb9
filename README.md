# GOAP enemy AI: a verified Dafny model

This project models the goal-oriented action planning (GOAP) core of the enemy AI in a Unity game, and proves properties of that model.

- **The fact store** (`CurrentWorldKnowledge`). It holds the agent's set of `(name, value)` facts and its list of sighted items. It also holds a four-goal insistence table and picks the goal with the highest insistence.
- **The alternative goal selector** (`GoalCreation.DetermineGoal` and `createGoalState`). The agent actually calls this two-goal variant before it plans.
- **The action operator base class** (`GoapAction`). This covers:
  - the precondition and effect sets;
  - the per-plan reset;
  - the base abort rule of `perform`;
  - writing effects back into the fact store;
  - the knowledge thresholds that enable an action.
- **The planner** (`GoapPlanner`). It resets the actions and keeps those that pass their procedural check. It then grows a search tree by recursion: from each node it applies every action whose preconditions hold, and it drops that action below the node. A node whose state satisfies the goal is recorded as a leaf and not expanded. The planner returns the root path of the first cheapest leaf, or nothing.
- **Item statistics** (`Item.SetItem` and its getters).

The files are:

- `facts.dfy` (module `Facts`): facts as `(key, value)` pairs. A C# `HashSet` is a duplicate-free sequence in a fixed iteration order, where `Add` appends when absent and `Remove` drops the element.
- `selection.dfy` (`Selection`): the strict running maximum and the running minimum, which both goal selectors use.
- `world_knowledge.dfy` (`WorldKnowledge`): the class `CurrentWorldKnowledge` and the specification functions for its goal table.
- `goal_creation.dfy` (`GoalSelection`): the class `GoalCreation`.
- `goap_action.dfy` (`Actions`): the class `GoapAction`.
- `planning.dfy` (`Planning`): the search as functions over a catalogue of action snapshots (`Op`), and the proofs:
  - the search terminates;
  - it is sound;
  - it is complete;
  - its plan is never costlier than any valid plan.
- `goap_planner.dfy` (`GoapPlanner`): the planner's loops and recursion as methods, each proved equal to those functions. `Plan` also covers the object-level reset and check of each `GoapAction`.
- `item.dfy` (`Items`): the class `Item`.
- `fixtures.dfy` (`Fixtures`): the constant precondition and effect tables of five concrete actions, and plans worked out on them.

How the model represents the source:

- Costs are integers, and game objects are `nat` identifiers.
- An action subclass's `reset()` is a parameter of type `SubclassReset`: the cost and target it assigns.
- A subclass's `checkProceduralPrecondition` is a parameter of type `ProceduralCheck`: its verdict and the base-class fields it assigns on the way. These are the cost, the target and `path`; `PatrolToPoint` stores its computed path in the inherited `path` (`Actions/PatrolToPoint.cs:137`). A navigation path is a `nat` identifier.

## Model

| member | source | states |
|---|---|---|
| `Selection.FirstMaxAbove` | Adv-Games-Eng-Project/Assets/Scripts/Enemy-AI/GOAP/CurrentWorldKnowledge.cs:289-298 | None exactly when no entry exceeds the floor; otherwise the chosen entry exceeds the floor, is at least every entry, and is strictly greater than every earlier entry (ties keep the lowest index) |
| `Selection.MinFrom` | Adv-Games-Eng-Project/Assets/Scripts/Enemy-AI/GOAP/CurrentWorldKnowledge.cs:248-253 | the running minimum from the start value is at most the start and every entry, and is the start or one of the entries |
| `WorldKnowledge.CurrentWorldKnowledge.constructor` | Adv-Games-Eng-Project/Assets/Scripts/Enemy-AI/GOAP/CurrentWorldKnowledge.cs:37-67 | 8 facts with distinct names, all false; 4 goals in the fixed order, each wanting its fact true, insistence -1; no items and no current goal |
| `WorldKnowledge.CurrentWorldKnowledge.AddItemLocation` | Adv-Games-Eng-Project/Assets/Scripts/Enemy-AI/GOAP/CurrentWorldKnowledge.cs:73-83 | the item is appended unless listed; it is then listed, and a duplicate-free list stays duplicate-free |
| `WorldKnowledge.AddIdempotent` | Adv-Games-Eng-Project/Assets/Scripts/Enemy-AI/GOAP/CurrentWorldKnowledge.cs:73-83 | adding an item twice is adding it once |
| `WorldKnowledge.CurrentWorldKnowledge.RemoveItemLocation` | Adv-Games-Eng-Project/Assets/Scripts/Enemy-AI/GOAP/CurrentWorldKnowledge.cs:89-98 | the list becomes what the in-place index scan leaves (`RemoveScan`), where the index moves on after each `RemoveAt` |
| `WorldKnowledge.RemoveScanUnique` | Adv-Games-Eng-Project/Assets/Scripts/Enemy-AI/GOAP/CurrentWorldKnowledge.cs:89-98 | on a duplicate-free list the scan removes exactly the item and keeps the others in order; a list without the item is unchanged |
| `WorldKnowledge.RemoveScanAbsent` | Adv-Games-Eng-Project/Assets/Scripts/Enemy-AI/GOAP/CurrentWorldKnowledge.cs:89-98 | scanning for an item the list does not hold changes nothing |
| `WorldKnowledge.RemoveScanSkips` | Adv-Games-Eng-Project/Assets/Scripts/Enemy-AI/GOAP/CurrentWorldKnowledge.cs:91-96 | an item listed twice in a row is removed only once: the second copy slides into the freed index and is skipped |
| `WorldKnowledge.CurrentWorldKnowledge.RemoveData` | Adv-Games-Eng-Project/Assets/Scripts/Enemy-AI/GOAP/CurrentWorldKnowledge.cs:105-108 | returns whether the exact pair was present, and removes exactly that pair |
| `WorldKnowledge.CurrentWorldKnowledge.EditDataValue` | Adv-Games-Eng-Project/Assets/Scripts/Enemy-AI/GOAP/CurrentWorldKnowledge.cs:125-143 | returns whether a fact with that name existed; the store becomes `SetFact` of the new pair and keeps one fact per name |
| `WorldKnowledge.SetFactSpec` | Adv-Games-Eng-Project/Assets/Scripts/Enemy-AI/GOAP/CurrentWorldKnowledge.cs:125-143 | after the edit the new pair is in the store and is the only fact with its name; facts with other names keep their membership; names stay unique |
| `WorldKnowledge.SetFactIdempotent` | Adv-Games-Eng-Project/Assets/Scripts/Enemy-AI/GOAP/CurrentWorldKnowledge.cs:125-143 | editing the same pair twice equals editing it once, and the name is then present |
| `WorldKnowledge.CurrentWorldKnowledge.GetFactState` | Adv-Games-Eng-Project/Assets/Scripts/Enemy-AI/GOAP/CurrentWorldKnowledge.cs:151-162 | returns whether the exact pair was in the store; an unknown name is created with value false (`Vivify`), else the store is unchanged |
| `WorldKnowledge.VivifiedFalse` | Adv-Games-Eng-Project/Assets/Scripts/Enemy-AI/GOAP/CurrentWorldKnowledge.cs:204-235 | once a name has been read, asking for it with value false answers whether it was not true before |
| `WorldKnowledge.CurrentWorldKnowledge.UpdateGoalInsistence` | Adv-Games-Eng-Project/Assets/Scripts/Enemy-AI/GOAP/CurrentWorldKnowledge.cs:185-191 | the goal at the index is replaced by the given goal's name and desired value with the new insistence, and the rest of the table is unchanged |
| `WorldKnowledge.CurrentWorldKnowledge.DetermineGoalsInsistence` | Adv-Games-Eng-Project/Assets/Scripts/Enemy-AI/GOAP/CurrentWorldKnowledge.cs:198-259 | the store gains any missing "foundPlayer", "hasItem" and "RECEIVECALL_playerSighting" facts as false; the four insistences become `Insistences` of the old store and the item count |
| `WorldKnowledge.CurrentWorldKnowledge.MinOtherInsistence` | Adv-Games-Eng-Project/Assets/Scripts/Enemy-AI/GOAP/CurrentWorldKnowledge.cs:248-253 | the minimum, from `Int32.MaxValue`, of every insistence whose goal is not "isPatrolling" |
| `WorldKnowledge.OtherScoresOfTable` | Adv-Games-Eng-Project/Assets/Scripts/Enemy-AI/GOAP/CurrentWorldKnowledge.cs:249-253 | with the fixed goal names, the goals other than patrol are the first three, in order |
| `WorldKnowledge.CurrentWorldKnowledge.SelectGoal` | Adv-Games-Eng-Project/Assets/Scripts/Enemy-AI/GOAP/CurrentWorldKnowledge.cs:289-298 | the current goal becomes the goal at `FirstMaxAbove(scores, -1)`, and is unchanged when no score exceeds -1 |
| `WorldKnowledge.CurrentWorldKnowledge.DetermineNewGoal` | Adv-Games-Eng-Project/Assets/Scripts/Enemy-AI/GOAP/CurrentWorldKnowledge.cs:283-306 | recalculates the insistences, then picks the goal `GoalPriority` names, which always exists; returns the one pair (name, desired value) |
| `WorldKnowledge.InsistenceChoice` | Adv-Games-Eng-Project/Assets/Scripts/Enemy-AI/GOAP/CurrentWorldKnowledge.cs:225-298 | the patrol score is at least 0, so a goal is always chosen; the choice is a sighted player, else a heard call, else a known item not held, else patrol |
| `WorldKnowledge.InitialGoalIsPatrol` | Adv-Games-Eng-Project/Assets/Scripts/Enemy-AI/GOAP/CurrentWorldKnowledge.cs:37-67 | with the initial facts and no items, "isPatrolling" is chosen |
| `WorldKnowledge.FoundPlayerGoalIsAttack` | Adv-Games-Eng-Project/Assets/Scripts/Enemy-AI/GOAP/CurrentWorldKnowledge.cs:225-229 | with "foundPlayer" true, "attackPlayer" is chosen whatever else holds |
| `GoalSelection.GoalCreation.DetermineGoal` | Adv-Games-Eng-Project/Assets/Scripts/Enemy-AI/GoalCreation.cs:269-338 | "foundPlayer" and "isPatrolling" are created as false when unknown; the result is `Decide` of the goal list and whether the player was found |
| `GoalSelection.ScoreGoals` | Adv-Games-Eng-Project/Assets/Scripts/Enemy-AI/GoalCreation.cs:287-320 | chase scores -1, plus 100 when the player was found; patrol scores 100 when the minimum so far is at most 1, else 0; later positions are not scored |
| `GoalSelection.MinScore` | Adv-Games-Eng-Project/Assets/Scripts/Enemy-AI/GoalCreation.cs:311-315 | the minimum score recorded so far, from `Int32.MaxValue` |
| `GoalSelection.Strongest` | Adv-Games-Eng-Project/Assets/Scripts/Enemy-AI/GoalCreation.cs:323-334 | the first strictly highest score above -1 gives its goal and whether (goal, true) is in the goal list; ("", false) when none exceeds -1 |
| `GoalSelection.DecideSpec` | Adv-Games-Eng-Project/Assets/Scripts/Enemy-AI/GoalCreation.cs:287-337 | a found player makes the first goal win; otherwise the second goal wins; with fewer goals than that, nothing wins |
| `GoalSelection.ScoresStopAtTwo` | Adv-Games-Eng-Project/Assets/Scripts/Enemy-AI/GoalCreation.cs:300-319 | positions past the two enum cases add no score |
| `GoalSelection.StandardDecision` | Adv-Games-Eng-Project/Assets/Scripts/Enemy-AI/GoalCreation.cs:59-66 | with the standard goal list, a found player gives ("foundPlayer", true), else ("isPatrolling", true) |
| `GoalSelection.GoalCreation.CreateGoalState` | Adv-Games-Eng-Project/Assets/Scripts/Enemy-AI/GoalCreation.cs:53-71 | always exactly one pair: ("foundPlayer", true) when the player was found, else ("isPatrolling", true) |
| `Actions.GoapAction.constructor` | Adv-Games-Eng-Project/Assets/Scripts/Enemy-AI/GOAP/GoapAction.cs:62-67 | empty precondition and effect sets, no knowledge, and C# defaults elsewhere |
| `Actions.GoapAction.DoReset` | Adv-Games-Eng-Project/Assets/Scripts/Enemy-AI/GOAP/GoapAction.cs:72-81 | not in range; movement cost 0; cost not too high; reset count 0; no path; cost as the subclass reset assigns it; target null unless the subclass reset sets it |
| `Actions.GoapAction.Perform` | Adv-Games-Eng-Project/Assets/Scripts/Enemy-AI/GOAP/GoapAction.cs:109-112 | the base perform succeeds exactly when the cost was not found too high |
| `Actions.GoapAction.IsInRange` | Adv-Games-Eng-Project/Assets/Scripts/Enemy-AI/GOAP/GoapAction.cs:128-131 | returns the range flag, as `SetInRange` or `DoReset` last left it |
| `Actions.GoapAction.CheckProceduralPrecondition` | Adv-Games-Eng-Project/Assets/Scripts/Enemy-AI/GOAP/GoapAction.cs:99 | the verdict is the subclass check's verdict; the cost, target and `path` become what the check assigns, and stay as they were where it assigns nothing |
| `Actions.GoapAction.SetInRange` | Adv-Games-Eng-Project/Assets/Scripts/Enemy-AI/GOAP/GoapAction.cs:128-135 | `IsInRange()` then returns the value set |
| `Actions.GoapAction.AddPrecondition` | Adv-Games-Eng-Project/Assets/Scripts/Enemy-AI/GOAP/GoapAction.cs:138-141 | the exact pair is added unless present; the set stays duplicate-free |
| `Actions.GoapAction.AddEffect` | Adv-Games-Eng-Project/Assets/Scripts/Enemy-AI/GOAP/GoapAction.cs:158-161 | the exact pair is added unless present; the set stays duplicate-free |
| `Actions.GoapAction.RemovePrecondition` | Adv-Games-Eng-Project/Assets/Scripts/Enemy-AI/GOAP/GoapAction.cs:142-156 | the set becomes `RemoveLastWithKey` of the name |
| `Actions.GoapAction.RemoveEffect` | Adv-Games-Eng-Project/Assets/Scripts/Enemy-AI/GOAP/GoapAction.cs:162-176 | the set becomes `RemoveLastWithKey` of the name |
| `Facts.LastWithKey` | Adv-Games-Eng-Project/Assets/Scripts/Enemy-AI/GOAP/GoapAction.cs:144-151 | none exactly when no pair has the name; otherwise a pair with the name that no later pair shares its name with |
| `Actions.FindLastWithKey` | Adv-Games-Eng-Project/Assets/Scripts/Enemy-AI/GOAP/GoapAction.cs:144-151 | the scan ends with `LastWithKey`: the last pair with the name in iteration order, or none |
| `Actions.RemoveLastWithKey` | Adv-Games-Eng-Project/Assets/Scripts/Enemy-AI/GOAP/GoapAction.cs:142-156 | an absent name changes nothing; otherwise exactly one pair (the last with the name) goes, every pair with another name stays, and the set stays duplicate-free |
| `Actions.AddThenRemove` | Adv-Games-Eng-Project/Assets/Scripts/Enemy-AI/GOAP/GoapAction.cs:138-156 | adding a pair under a new name and then removing that name restores the set; adding never drops a pair |
| `Actions.GoapAction.UpdateWorldState` | Adv-Games-Eng-Project/Assets/Scripts/Enemy-AI/GOAP/GoapAction.cs:256-262 | the store becomes every effect edited in turn (`EditAll`) and keeps one fact per name |
| `Actions.EditAllSpec` | Adv-Games-Eng-Project/Assets/Scripts/Enemy-AI/GOAP/GoapAction.cs:256-262 | with effects of distinct names, every effect pair ends up in the store, names stay unique, and facts with names no effect mentions are untouched |
| `Actions.GoapAction.IncreaseKnowledge` | Adv-Games-Eng-Project/Assets/Scripts/Enemy-AI/GOAP/GoapAction.cs:271-289 | knowledge grows by the amount; the action is learned exactly when it was disabled and is "UseItem" at ≥ 100 or "DodgeProjectile" at ≥ 200; it is enabled afterwards exactly when it was before or was learned |
| `GoapPlanner.Contains` | Adv-Games-Eng-Project/Assets/Scripts/Enemy-AI/GOAP/GoapPlanner.cs:151-156 | the inner search loop finds the pair exactly when it is present |
| `GoapPlanner.InState` | Adv-Games-Eng-Project/Assets/Scripts/Enemy-AI/GOAP/GoapPlanner.cs:147-161 | true exactly when every pair of `test`, name and value, is in `state` (`Holds`) |
| `Planning.MissingKeyFails` | Adv-Games-Eng-Project/Assets/Scripts/Enemy-AI/GOAP/GoapPlanner.cs:147-161 | a name missing from the state matches neither value |
| `GoapPlanner.PopulateState` | Adv-Games-Eng-Project/Assets/Scripts/Enemy-AI/GOAP/GoapPlanner.cs:170-199 | the fresh set is the changes applied one after another (`Apply`) to a copy of the state |
| `Planning.ApplyOne` | Adv-Games-Eng-Project/Assets/Scripts/Enemy-AI/GOAP/GoapPlanner.cs:177-197 | the change is in the result; a pair stays exactly when the change pair was absent or the pair has another name; duplicate-freedom is kept |
| `Planning.ApplyKeepsOpposite` | Adv-Games-Eng-Project/Assets/Scripts/Enemy-AI/GOAP/GoapPlanner.cs:181-196 | a change whose pair is absent is added beside the existing pair of opposite value |
| `Planning.ApplyCollapses` | Adv-Games-Eng-Project/Assets/Scripts/Enemy-AI/GOAP/GoapPlanner.cs:188-192 | a change whose pair is present leaves it as the only pair with its name |
| `Planning.ApplyContainsChanges` | Adv-Games-Eng-Project/Assets/Scripts/Enemy-AI/GOAP/GoapPlanner.cs:177-197 | with changes of distinct names, every change is in the result and facts with names no change mentions are kept |
| `GoapPlanner.ActionSubset` | Adv-Games-Eng-Project/Assets/Scripts/Enemy-AI/GOAP/GoapPlanner.cs:131-138 | the set without the removed action, order kept (`Remove`) |
| `GoapPlanner.BuildGraph` | Adv-Games-Eng-Project/Assets/Scripts/Enemy-AI/GOAP/GoapPlanner.cs:92-122 | appends exactly `LeavesOf` the node to the shared leaf list, and returns true exactly when it appended a leaf; the recursion terminates on the size of the usable set |
| `GoapPlanner.CheapestLeaf` | Adv-Games-Eng-Project/Assets/Scripts/Enemy-AI/GOAP/GoapPlanner.cs:52-60 | the first leaf no other is strictly cheaper than (`FirstCheapest`) |
| `Planning.FirstCheapest` | Adv-Games-Eng-Project/Assets/Scripts/Enemy-AI/GOAP/GoapPlanner.cs:52-60 | None only for no leaves; the chosen cost is at most every cost and strictly below every earlier one |
| `GoapPlanner.WalkBack` | Adv-Games-Eng-Project/Assets/Scripts/Enemy-AI/GOAP/GoapPlanner.cs:63-70 | the actions on the leaf's root path, root first (`PathOf`) |
| `Planning.RootPath` | Adv-Games-Eng-Project/Assets/Scripts/Enemy-AI/GOAP/GoapPlanner.cs:42 | the root carries no action |
| `GoapPlanner.UsableIds` | Adv-Games-Eng-Project/Assets/Scripts/Enemy-AI/GOAP/GoapPlanner.cs:30-34 | exactly the actions whose check passed, in iteration order |
| `GoapPlanner.Catalogue` | Adv-Games-Eng-Project/Assets/Scripts/Enemy-AI/GOAP/GoapPlanner.cs:100-105 | for each action, the preconditions, effects and cost the search reads |
| `GoapPlanner.ResetActions` | Adv-Games-Eng-Project/Assets/Scripts/Enemy-AI/GOAP/GoapPlanner.cs:25-27 | every available action is reset with its own subclass reset |
| `GoapPlanner.UsableActions` | Adv-Games-Eng-Project/Assets/Scripts/Enemy-AI/GOAP/GoapPlanner.cs:30-34 | every action runs its check once (`Checked`: cost, target and `path` as the check assigns them, every other field unchanged), and the usable set is `UsableIds` of the verdicts |
| `GoapPlanner.SearchPlan` | Adv-Games-Eng-Project/Assets/Scripts/Enemy-AI/GOAP/GoapPlanner.cs:39-70 | builds the graph from the root, picks the cheapest leaf and walks back; the result is `Search` |
| `GoapPlanner.SearchIdsValid` | Adv-Games-Eng-Project/Assets/Scripts/Enemy-AI/GOAP/GoapPlanner.cs:63-70 | a found plan refers only to catalogue actions |
| `GoapPlanner.ActionsOf` | Adv-Games-Eng-Project/Assets/Scripts/Enemy-AI/GOAP/GoapPlanner.cs:73-76 | the queue holds the actions of the plan in order |
| `GoapPlanner.Plan` | Adv-Games-Eng-Project/Assets/Scripts/Enemy-AI/GOAP/GoapPlanner.cs:19-80 | every action is reset and then checked (`Prepared`: per-plan fields cleared, and `path` is whatever the check stored, null when it stored none); the result is null exactly when the search finds no leaf; otherwise it is the queue of the actions of `Search`, in order |
| `Planning.SearchCorrect` | Adv-Games-Eng-Project/Assets/Scripts/Enemy-AI/GOAP/GoapPlanner.cs:19-122 | no plan exactly when no valid plan exists (`Reaches`); a found plan is valid, uses only usable actions and none twice, reaches the goal when replayed with `populateState`, and costs no more than any valid plan |
| `Planning.ReachesShape` | Adv-Games-Eng-Project/Assets/Scripts/Enemy-AI/GOAP/GoapPlanner.cs:107-117 | a valid plan is non-empty, no longer than the usable set, drawn from it, and never repeats an action |
| `Planning.LeavesSound` | Adv-Games-Eng-Project/Assets/Scripts/Enemy-AI/GOAP/GoapPlanner.cs:97-119 | every recorded leaf is the node reached by following some valid plan from its node |
| `Planning.ReachedIsLeaf` | Adv-Games-Eng-Project/Assets/Scripts/Enemy-AI/GOAP/GoapPlanner.cs:97-119 | every valid plan ends at a recorded leaf (the search is complete) |
| `Planning.FollowCost` | Adv-Games-Eng-Project/Assets/Scripts/Enemy-AI/GOAP/GoapPlanner.cs:105 | the node a plan reaches costs the starting node's running cost plus the plan's action costs, and holds the state the plan replays to |
| `Planning.FollowPath` | Adv-Games-Eng-Project/Assets/Scripts/Enemy-AI/GOAP/GoapPlanner.cs:63-70 | the root path of the node reached by a plan is the node's path followed by the plan |
| `Planning.ReplayReachesGoal` | Adv-Games-Eng-Project/Assets/Scripts/Enemy-AI/GOAP/GoapPlanner.cs:107-110 | replaying a valid plan ends in a state satisfying the goal |
| `Fixtures.PatrolFromInitialFacts` | Adv-Games-Eng-Project/Assets/Scripts/Enemy-AI/Actions/PatrolToPoint.cs:21-29 | from the initial facts, patrolling is the one-action plan, and it leaves ("isPatrolling", true) beside the old false pair |
| `Fixtures.PatrolTwice` | Adv-Games-Eng-Project/Assets/Scripts/Enemy-AI/GOAP/GoapPlanner.cs:181-192 | from that state patrolling is still possible, and applying it again collapses the name to the single true pair |
| `Fixtures.ChaseFoundPlayer` | Adv-Games-Eng-Project/Assets/Scripts/Enemy-AI/Actions/ChasePlayer.cs:17-35 | with the player found and not yet attacked, chasing is the one-action plan for the attack goal, and both effect pairs are added beside the opposite pairs |
| `Fixtures.AimThenUse` | Adv-Games-Eng-Project/Assets/Scripts/Enemy-AI/Actions/UseItem.cs:16-26 | holding an item, the plan is aim then use, at total cost -1; the final state holds both "hasItem" pairs and one "aimingAtPlayer" pair |
| `Fixtures.AimUseLeaves` | Adv-Games-Eng-Project/Assets/Scripts/Enemy-AI/Actions/AimAtPlayer.cs:16-24 | using the item before aiming is impossible, so the only leaf is aim then use |
| `Fixtures.NothingToFetch` | Adv-Games-Eng-Project/Assets/Scripts/Enemy-AI/Actions/GetItem.cs:20-27 | a goal that already holds still needs an action: with the item held it cannot be fetched, so no plan is found and none exists |
| `Items.ParseType` | Adv-Games-Eng-Project/Assets/Scripts/Items/Item.cs:85-95 | exactly "THROWABLE" and "WALL" are recognised |
| `Items.ParseEffect` | Adv-Games-Eng-Project/Assets/Scripts/Items/Item.cs:71-82 | exactly "STUN", "SLOW" and "BLIND" are recognised; NONE is never the result |
| `Items.TypeRoundTrip` | Adv-Games-Eng-Project/Assets/Scripts/Items/Item.cs:13-25 | every type's name parses back to it |
| `Items.EffectRoundTrip` | Adv-Games-Eng-Project/Assets/Scripts/Items/Item.cs:27-39 | every effect's name except "NONE" parses back to it; "NONE" is not recognised |
| `Items.TypeNamesDistinct` | Adv-Games-Eng-Project/Assets/Scripts/Items/Item.cs:22-25 | two types have the same name exactly when they are equal |
| `Items.EffectNamesDistinct` | Adv-Games-Eng-Project/Assets/Scripts/Items/Item.cs:27-30 | two effects have the same name exactly when they are equal |
| `Items.Item.constructor` | Adv-Games-Eng-Project/Assets/Scripts/Items/Item.cs:13-54 | a fresh item is THROWABLE with effect STUN (the first enum members), duration 0 and no owner |
| `Items.Item.GetType` | Adv-Games-Eng-Project/Assets/Scripts/Items/Item.cs:22-25 | the returned name parses back to the item's type |
| `Items.Item.GetEffect` | Adv-Games-Eng-Project/Assets/Scripts/Items/Item.cs:27-30 | the returned name parses back to the effect, and is "NONE" exactly when the effect is NONE |
| `Items.Item.SetItem` | Adv-Games-Eng-Project/Assets/Scripts/Items/Item.cs:63-96 | the duration is the argument whatever the type; a recognised effect string sets the effect; "WALL" sets WALL and forces NONE; unrecognised strings leave their field; the owner is untouched |

## Left out

- `GoalCreation.moveAgent`, `GoapAgent`, the action subclasses' `perform`, `checkProceduralPrecondition` and `reset` bodies, `GetPathLength`, `UpdateNavAreas`, `ReBake`, `GameManager`, and the player and peripheral scripts. They depend on NavMesh paths, raycasts, physics, `Random`, `Time` and coroutines. The reset and check outcomes are parameters of `Plan`. The subclasses' constant precondition and effect tables appear as fixtures.
- `ToString`, `prettyPrint` and all debug logging: these are output only.
- Costs are `float` in the source and integers here. Rounding is not modelled.
- Item locations and targets are game objects in the source; here they are `nat` identifiers. A `GameObject.Find` that fails (a null target) is the caller's choice of `None`.
- The iteration order of a C# `HashSet` is not specified by the language. The model fixes insertion order, with a re-added pair going to the end. The "first wins" tie-breaks of the selectors and the cheapest-leaf loop are stated against that order.
- Actions' `Equals` is reference equality. The planner identifies actions by their index in the available set, which must be duplicate-free (it is a `HashSet`).
- `Actions.GoapAction.DoReset`: does not model the reassignment of `WorldData` from the agent component (line 80), because component lookup is engine code. The store an action holds is a constructor parameter.
- `Actions.GoapAction.IncreaseKnowledge`: does not model 32-bit wrap-around of `actionKnowledge`, because the model's integers are unbounded.
- `Actions.GoapAction.IncreaseKnowledge`: the `UseItem` branch enables the `UseItem` component and passes `this` to the agent's `addAction`. The model enables this action and reports the hand-over as the `learned` result, because the agent's action set is not part of this model.
- `hasPrePerformRun`, `prePerform`, `requiresInRange`, `isDone` and the subclasses' private fields are not modelled. Only the cost and target that a subclass's `reset()` assigns are.
- `GoapAgent`'s filtering of enabled actions before planning is an assumption on the input.

The model follows the code as written, also where it does other than its comments say or where its behaviour is easy to misread:

- `populateState` is commented "if the key exists in the current state, update the Value" (`GoapPlanner.cs:178`), but its test is whether the whole pair is present, not just the name (`GoapPlanner.cs:182`). A new pair is therefore added beside the pair of opposite value. Only a pair already present collapses its name to one pair (`Planning.ApplyOne`, `Fixtures.AimThenUse`).
- `RemoveItemLocation` advances its index after a `RemoveAt`, so the entry that slides into the freed position is not examined (`WorldKnowledge.RemoveScanSkips`). `AddItemLocation` keeps the list duplicate-free, so this does not show through the class's own methods (`WorldKnowledge.RemoveScanUnique`).
- The find-item score reads "hasItem" with value false *after* "hasItem" has been read with value true, which created it when missing. A missing "hasItem" therefore counts as not held (`WorldKnowledge.VivifiedFalse`).
