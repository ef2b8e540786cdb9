/** Item statistics: what an item is used as, what it does to its victim,
    for how long, and who holds it (`Item`). */
module Items {
  import opened Facts

  datatype ItemType = THROWABLE | WALL
  datatype ItemEffect = STUN | SLOW | BLIND | NONE

  /** The enum member's name, as `ToString` gives it. */
  function TypeName(t: ItemType): string
  {
    match t
    case THROWABLE => "THROWABLE"
    case WALL => "WALL"
  }

  function EffectName(e: ItemEffect): string
  {
    match e
    case STUN => "STUN"
    case SLOW => "SLOW"
    case BLIND => "BLIND"
    case NONE => "NONE"
  }

  /** The type switch of `SetItem`: the two member names are recognised, any other string is not. */
  function ParseType(s: string): (r: Option<ItemType>)
    ensures r.Some? <==> s == "THROWABLE" || s == "WALL"
  {
    if s == "THROWABLE" then Some(THROWABLE)
    else if s == "WALL" then Some(WALL)
    else None
  }

  /** The effect switch of `SetItem`: "NONE" has no case there, so it is not recognised. */
  function ParseEffect(s: string): (r: Option<ItemEffect>)
    ensures r.Some? <==> s == "STUN" || s == "SLOW" || s == "BLIND"
    ensures r != Some(NONE)
  {
    if s == "STUN" then Some(STUN)
    else if s == "SLOW" then Some(SLOW)
    else if s == "BLIND" then Some(BLIND)
    else None
  }

  /** Every type name parses back to its type. */
  lemma TypeRoundTrip(t: ItemType)
    ensures ParseType(TypeName(t)) == Some(t)
  {
    match t
    case THROWABLE =>
    case WALL =>
      assert TypeName(t) != "THROWABLE" by {
        assert TypeName(t)[0] == 'W';
      }
  }

  /** Every effect name but "NONE" parses back to its effect; "NONE" is ignored by the switch. */
  lemma EffectRoundTrip(e: ItemEffect)
    ensures e != NONE ==> ParseEffect(EffectName(e)) == Some(e)
    ensures e == NONE ==> ParseEffect(EffectName(e)) == None
  {
    var name := EffectName(e);
    match e
    case STUN =>
    case SLOW =>
      assert name != "STUN" by { assert name[1] == 'L'; }
    case BLIND =>
      assert name != "STUN" && name != "SLOW" by { assert name[0] == 'B'; }
    case NONE =>
      assert name != "STUN" && name != "SLOW" && name != "BLIND" by { assert name[0] == 'N'; }
  }

  /** Distinct types have distinct names, so `GetType` tells them apart. */
  lemma TypeNamesDistinct(t: ItemType, u: ItemType)
    ensures TypeName(t) == TypeName(u) <==> t == u
  {
    TypeRoundTrip(t);
    TypeRoundTrip(u);
  }

  lemma EffectNamesDistinct(e: ItemEffect, f: ItemEffect)
    ensures EffectName(e) == EffectName(f) <==> e == f
  {
    EffectRoundTrip(e);
    EffectRoundTrip(f);
    if e == NONE || f == NONE {
      assert EffectName(e) == EffectName(f) ==> e == f by {
        if EffectName(e) == EffectName(f) {
          assert ParseEffect(EffectName(e)) == ParseEffect(EffectName(f));
        }
      }
    }
  }

  class Item {
    var itemType: ItemType
    var effect: ItemEffect
    var duration: int
    var owner: Option<ObjectId>

    /** A fresh item holds the enum defaults (the first member of each), zero
        duration and no owner. */
    constructor ()
      ensures itemType == THROWABLE && effect == STUN && duration == 0 && owner == None
    {
      itemType := THROWABLE;
      effect := STUN;
      duration := 0;
      owner := None;
    }

    /** `GetType`: the name of the type, which parses back to it. */
    function GetType(): (r: string)
      reads this
      ensures ParseType(r) == Some(itemType)
    {
      TypeRoundTrip(itemType);
      TypeName(itemType)
    }

    /** `GetEffect`: the name of the effect; only "NONE" does not parse back. */
    function GetEffect(): (r: string)
      reads this
      ensures effect != NONE ==> ParseEffect(r) == Some(effect)
      ensures effect == NONE <==> r == "NONE"
    {
      EffectRoundTrip(effect);
      EffectName(effect)
    }

    /** `SetItem`: the duration is the argument whatever the type (the WALL
        case doubles only the parameter, after it was stored); a recognised
        effect string sets the effect, WALL then forces NONE; an unrecognised
        string leaves its field as it was; the owner is not assigned. */
    method SetItem(typeName: string, effectName: string, duration: int, owner: Option<ObjectId>)
      modifies this`itemType, this`effect, this`duration
      ensures this.duration == duration
      ensures itemType == (if typeName == "WALL" then WALL else if typeName == "THROWABLE" then THROWABLE else old(itemType))
      ensures effect == (if typeName == "WALL" then NONE else if ParseEffect(effectName).Some? then ParseEffect(effectName).value else old(effect))
      ensures ParseType(typeName).Some? ==> Some(itemType) == ParseType(typeName)
      ensures unchanged(this`owner)
    {
      this.duration := duration;

      if effectName == "STUN" {
        effect := STUN;
      } else if effectName == "SLOW" {
        effect := SLOW;
      } else if effectName == "BLIND" {
        effect := BLIND;
      }

      if typeName == "THROWABLE" {
        itemType := THROWABLE;
      } else if typeName == "WALL" {
        itemType := WALL;
        effect := NONE;
      }
    }
  }
}
