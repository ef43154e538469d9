/** The food classification enum of the toxin system (FoodType.java). */
module FoodTypes {

  datatype FoodType = RawMeat | CookedMeat | RawFish | CookedFish | Vegan

  /** FoodType.isRaw: exactly the types that have not been cooked. */
  predicate IsRaw(f: FoodType): (r: bool)
    ensures r <==> !IsCooked(f)
  {
    f == RawMeat || f == RawFish || f == Vegan
  }

  /** FoodType.isMeat: exactly the types made of meat. */
  predicate IsMeat(f: FoodType): (r: bool)
    ensures r <==> OriginOf(f) == Meat
  {
    f == RawMeat || f == CookedMeat
  }

  /** FoodType.isFish: exactly the types made of fish. */
  predicate IsFish(f: FoodType): (r: bool)
    ensures r <==> OriginOf(f) == Fish
  {
    f == RawFish || f == CookedFish
  }

  /** An independent description of each type, against which the three
      predicates are stated: what it is made of and whether it has been
      cooked. */
  datatype Origin = Meat | Fish | Plant

  function OriginOf(f: FoodType): Origin {
    match f
    case RawMeat | CookedMeat => Meat
    case RawFish | CookedFish => Fish
    case Vegan => Plant
  }

  function IsCooked(f: FoodType): bool {
    f == CookedMeat || f == CookedFish
  }

  /** No type is both meat and fish. */
  lemma MeatAndFishExclusive(f: FoodType)
    ensures !(IsMeat(f) && IsFish(f))
  {
  }

  /** VEGAN is the one type that is neither meat nor fish. */
  lemma NeitherMeatNorFishIsVegan(f: FoodType)
    ensures !IsMeat(f) && !IsFish(f) <==> f == Vegan
  {
  }

  /** The raw types are exactly RAW_MEAT, RAW_FISH and VEGAN; the two cooked
      types are not raw. */
  lemma RawTypes(f: FoodType)
    ensures IsRaw(f) <==> f in {RawMeat, RawFish, Vegan}
    ensures f == CookedMeat || f == CookedFish ==> !IsRaw(f)
  {
  }
}
