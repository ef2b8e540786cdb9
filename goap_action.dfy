/** The action operator base class (`GoapAction`): precondition and effect sets,
    the per-plan reset, the base abort rule, the write-back of effects into the
    fact store and the knowledge threshold that enables an action. */
module Actions {
  import opened Facts
  import opened WorldKnowledge

  /** What an action subclass's `reset()` assigns: a new cost (None: left as it
      was) and a new target (None: left null). Subclass fields of their own are
      not part of this model. */
  datatype SubclassReset = SubclassReset(setCost: Option<int>, setTarget: Option<ObjectId>)

  /** The outcome of a subclass's `checkProceduralPrecondition`: whether the
      action can run now, and the cost, target and base-class `path` it assigns
      on the way (None: left as it was). The path is an identifier of the
      computed navigation path. */
  datatype ProceduralCheck =
    ProceduralCheck(feasible: bool, setCost: Option<int>, setTarget: Option<ObjectId>, setPath: Option<ObjectId>)

  /** Knowledge at which the item-using action is learned. */
  const USE_ITEM_THRESHOLD: int := 100
  /** Knowledge at which the projectile-dodging action is learned. */
  const DODGE_THRESHOLD: int := 200

  /** The cost an action has after a hook that may assign it. */
  function Assigned(old_: int, set_: Option<int>): int
  {
    if set_.Some? then set_.value else old_
  }

  /** `removePrecondition`/`removeEffect`: find the LAST pair named `key` in
      iteration order and remove just that pair; an absent name changes nothing. */
  function RemoveLastWithKey(s: seq<Fact>, key: string): (r: seq<Fact>)
    ensures !HasKey(s, key) ==> r == s
    ensures HasKey(s, key) && NoDup(s) ==> |r| == |s| - 1
    ensures forall f :: f in r <==> f in s && LastWithKey(s, key) != Some(f)
    ensures forall f :: f in s && f.key != key ==> f in r
    ensures NoDup(s) ==> NoDup(r)
  {
    match LastWithKey(s, key)
    case None => s
    case Some(f) => Remove(s, f)
  }

  /** Adding a pair under a new name and removing that name gives the set back;
      adding a pair whose name is already taken keeps the other pairs of that name. */
  lemma AddThenRemove(s: seq<Fact>, key: string, value: bool)
    ensures !HasKey(s, key) ==> RemoveLastWithKey(SetAdd(s, Fact(key, value)), key) == s
    ensures forall f :: f in s ==> f in SetAdd(s, Fact(key, value))
  {
    if !HasKey(s, key) {
      var f := Fact(key, value);
      assert f !in s;
      assert (s + [f])[..|s + [f]| - 1] == s;
      assert LastWithKey(s + [f], key) == Some(f);
      RemoveAppended(s, f);
    }
  }

  /** The fact store after `EditDataValue` of each effect in turn. */
  function EditAll(store: seq<Fact>, effects: seq<Fact>): seq<Fact>
    decreases |effects|
  {
    if effects == [] then store
    else SetFact(EditAll(store, effects[..|effects| - 1]), effects[|effects| - 1])
  }

  /** After writing back effects with distinct names, every effect is in the store,
      names stay unique, and facts with names no effect mentions are untouched. */
  lemma {:induction false} EditAllSpec(store: seq<Fact>, effects: seq<Fact>)
    requires UniqueKeys(store) && UniqueKeys(effects)
    ensures UniqueKeys(EditAll(store, effects))
    ensures forall e :: e in effects ==> e in EditAll(store, effects)
    ensures forall f: Fact :: !HasKey(effects, f.key) ==> (f in EditAll(store, effects) <==> f in store)
    decreases |effects|
  {
    if effects != [] {
      var prefix := effects[..|effects| - 1];
      var last := effects[|effects| - 1];
      assert UniqueKeys(prefix);
      EditAllSpec(store, prefix);
      SetFactSpec(EditAll(store, prefix), last);
      forall e | e in effects ensures e in EditAll(store, effects) {
        if e != last {
          var i :| 0 <= i < |effects| && effects[i] == e;
          assert i < |effects| - 1 && e in prefix;
          assert e.key != last.key;
        }
      }
      forall f: Fact | !HasKey(effects, f.key)
        ensures f in EditAll(store, effects) <==> f in store
      {
        assert f.key != last.key;
      }
    }
  }

  /** The state `plan` leaves an action in after `doReset` with `sub` and the
      procedural check `check`: the per-plan fields cleared, cost, target and
      path as the two hooks assign them, everything else as it was. */
  twostate predicate Prepared(a: GoapAction, sub: SubclassReset, check: ProceduralCheck)
    reads a
  {
    !a.inRange && a.currentMovementCost == 0 && !a.currentCostTooHigh && a.resetCount == 0 &&
    a.path == check.setPath &&
    a.cost == Assigned(Assigned(old(a.cost), sub.setCost), check.setCost) &&
    a.target == (if check.setTarget.Some? then check.setTarget else sub.setTarget) &&
    a.preconditions == old(a.preconditions) && a.effects == old(a.effects) &&
    a.actionEnabled == old(a.actionEnabled) && a.actionKnowledge == old(a.actionKnowledge) &&
    a.name == old(a.name) && a.worldData == old(a.worldData)
  }

  /** The change a procedural check makes: cost, target and path as it assigns
      them, every other field as it was. */
  twostate predicate Checked(a: GoapAction, check: ProceduralCheck)
    reads a
  {
    a.cost == Assigned(old(a.cost), check.setCost) &&
    a.target == (if check.setTarget.Some? then check.setTarget else old(a.target)) &&
    a.inRange == old(a.inRange) && a.currentMovementCost == old(a.currentMovementCost) &&
    a.currentCostTooHigh == old(a.currentCostTooHigh) && a.resetCount == old(a.resetCount) &&
    a.path == (if check.setPath.Some? then check.setPath else old(a.path)) &&
    a.preconditions == old(a.preconditions) && a.effects == old(a.effects) &&
    a.actionEnabled == old(a.actionEnabled) && a.actionKnowledge == old(a.actionKnowledge) &&
    a.name == old(a.name) && a.worldData == old(a.worldData)
  }

  /** The state after `doReset` alone. */
  twostate predicate ResetDone(a: GoapAction, sub: SubclassReset)
    reads a
  {
    !a.inRange && a.currentMovementCost == 0 && !a.currentCostTooHigh && a.resetCount == 0 && a.path.None? &&
    a.cost == Assigned(old(a.cost), sub.setCost) && a.target == sub.setTarget &&
    a.preconditions == old(a.preconditions) && a.effects == old(a.effects) &&
    a.actionEnabled == old(a.actionEnabled) && a.actionKnowledge == old(a.actionKnowledge) &&
    a.name == old(a.name) && a.worldData == old(a.worldData)
  }

  class GoapAction {
    var preconditions: seq<Fact>
    var effects: seq<Fact>
    var inRange: bool
    /** Planning cost (a float in the source). */
    var cost: int
    var currentMovementCost: int
    var currentCostTooHigh: bool
    var resetCount: int
    var target: Option<ObjectId>
    var actionEnabled: bool
    var actionKnowledge: int
    /** The subclass's type name (`GetType().FullName`). */
    var name: string
    var worldData: CurrentWorldKnowledge
    /** The stored navigation path; only whether it is null is modelled. */
    var path: Option<ObjectId>

    /** Precondition and effect sets stay duplicate-free (they are hash sets). */
    ghost predicate Valid()
      reads this
    {
      NoDup(preconditions) && NoDup(effects)
    }

    /** The base constructor: empty sets and no knowledge; every other field has
        its C# default, except the name and the fact store, which the engine
        assigns on start-up and are parameters here. */
    constructor (name: string, worldData: CurrentWorldKnowledge)
      ensures Valid()
      ensures preconditions == [] && effects == [] && actionKnowledge == 0
      ensures !inRange && cost == 0 && currentMovementCost == 0 && !currentCostTooHigh
      ensures resetCount == 0 && target.None? && !actionEnabled && path.None?
      ensures this.name == name && this.worldData == worldData
    {
      preconditions := [];
      effects := [];
      inRange := false;
      cost := 0;
      currentMovementCost := 0;
      currentCostTooHigh := false;
      resetCount := 0;
      target := None;
      actionEnabled := false;
      actionKnowledge := 0;
      this.name := name;
      this.worldData := worldData;
      path := None;
    }

    /** The base `perform`: the action carries on unless its cost was found too high. */
    function Perform(): (ok: bool)
      reads this
      ensures ok <==> !currentCostTooHigh
    {
      !currentCostTooHigh
    }

    /** `isInRange`: the range flag as `SetInRange` or `DoReset` left it. */
    function IsInRange(): (r: bool)
      reads this
      ensures r == inRange
    {
      inRange
    }

    method SetInRange(inRange: bool)
      modifies this`inRange
      ensures this.inRange == inRange
      ensures IsInRange() == inRange
    {
      this.inRange := inRange;
    }

    /** `doReset`: clear the per-plan fields; `target` is cleared BEFORE the
        subclass reset runs, so the subclass may set it again. */
    method DoReset(sub: SubclassReset)
      modifies this`inRange, this`target, this`cost, this`currentMovementCost,
        this`currentCostTooHigh, this`resetCount, this`path
      ensures !inRange && target == sub.setTarget
      ensures cost == Assigned(old(cost), sub.setCost)
      ensures currentMovementCost == 0 && !currentCostTooHigh && resetCount == 0 && path.None?
      ensures Perform() && !IsInRange()
    {
      inRange := false;
      target := None;
      // the subclass reset
      if sub.setCost.Some? { cost := sub.setCost.value; }
      if sub.setTarget.Some? { target := sub.setTarget; }
      currentMovementCost := 0;
      currentCostTooHigh := false;
      resetCount := 0;
      path := None;
    }

    /** The planning-time part of `checkProceduralPrecondition`: apply what the
        subclass assigns and report whether the action is usable. */
    method CheckProceduralPrecondition(check: ProceduralCheck) returns (usable: bool)
      modifies this`cost, this`target, this`path
      ensures usable == check.feasible
      ensures cost == Assigned(old(cost), check.setCost)
      ensures target == if check.setTarget.Some? then check.setTarget else old(target)
      ensures path == if check.setPath.Some? then check.setPath else old(path)
    {
      if check.setCost.Some? { cost := check.setCost.value; }
      if check.setTarget.Some? { target := check.setTarget; }
      if check.setPath.Some? { path := check.setPath; }
      usable := check.feasible;
    }

    method AddPrecondition(key: string, value: bool)
      requires Valid()
      modifies this`preconditions
      ensures Valid()
      ensures preconditions == SetAdd(old(preconditions), Fact(key, value))
    {
      preconditions := SetAdd(preconditions, Fact(key, value));
    }

    method RemovePrecondition(key: string)
      requires Valid()
      modifies this`preconditions
      ensures Valid()
      ensures preconditions == RemoveLastWithKey(old(preconditions), key)
    {
      var remove := FindLastWithKey(preconditions, key);
      if remove.Some? {
        preconditions := Remove(preconditions, remove.value);
      }
    }

    method AddEffect(key: string, value: bool)
      requires Valid()
      modifies this`effects
      ensures Valid()
      ensures effects == SetAdd(old(effects), Fact(key, value))
    {
      effects := SetAdd(effects, Fact(key, value));
    }

    method RemoveEffect(key: string)
      requires Valid()
      modifies this`effects
      ensures Valid()
      ensures effects == RemoveLastWithKey(old(effects), key)
    {
      var remove := FindLastWithKey(effects, key);
      if remove.Some? {
        effects := Remove(effects, remove.value);
      }
    }

    /** Write every effect back into the agent's fact store with `EditDataValue`. */
    method UpdateWorldState()
      requires worldData.Valid()
      modifies worldData`worldData
      ensures worldData.Valid()
      ensures worldData.worldData == EditAll(old(worldData.worldData), effects)
    {
      for i := 0 to |effects|
        invariant worldData.Valid()
        invariant worldData.worldData == EditAll(old(worldData.worldData), effects[..i])
      {
        assert effects[..i + 1][..i] == effects[..i];
        var _ := worldData.EditDataValue(effects[i]);
      }
      assert effects[..|effects|] == effects;
    }

    /** Add to the action's knowledge; a disabled item-using or projectile-dodging
        action becomes enabled at its threshold. `learned` says that the action
        was enabled and handed to the agent's `addAction`. */
    method IncreaseKnowledge(knowledge: int) returns (learned: bool)
      modifies this`actionKnowledge, this`actionEnabled
      ensures actionKnowledge == old(actionKnowledge) + knowledge
      ensures learned <==> (!old(actionEnabled) &&
        ((name == "UseItem" && actionKnowledge >= USE_ITEM_THRESHOLD) ||
         (name == "DodgeProjectile" && actionKnowledge >= DODGE_THRESHOLD)))
      ensures actionEnabled <==> old(actionEnabled) || learned
    {
      actionKnowledge := actionKnowledge + knowledge;
      learned := false;
      if !actionEnabled && actionKnowledge >= USE_ITEM_THRESHOLD && name == "UseItem" {
        actionEnabled := true;
        learned := true;
      }
      if !actionEnabled && actionKnowledge >= DODGE_THRESHOLD && name == "DodgeProjectile" {
        actionEnabled := true;
        learned := true;
      }
    }
  }

  /** The scan of `removePrecondition`/`removeEffect`: remember the last pair with
      the name, starting from the default (no pair). */
  method FindLastWithKey(s: seq<Fact>, key: string) returns (remove: Option<Fact>)
    ensures remove == LastWithKey(s, key)
  {
    remove := None;
    for i := 0 to |s|
      invariant remove == LastWithKey(s[..i], key)
    {
      assert s[..i + 1][..i] == s[..i];
      if s[i].key == key {
        remove := Some(s[i]);
      }
    }
    assert s[..|s|] == s;
  }
}
