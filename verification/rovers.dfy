/** Rover identifiers of the Mars Photo API and the expansion of the group
    flags ALL, ACTIVE and INACTIVE into concrete rovers. */
module Rovers {

  /** The seven members of the rover enumeration: three group flags and four rovers. */
  datatype RoverType = All | Active | Inactive | Curiosity | Spirit | Opportunity | Perseverance

  /** The enumeration's string value, which is also the rover's key in the
      catalog and its path segment in provider URLs. */
  function Value(r: RoverType): string {
    match r
    case All => "all"
    case Active => "active"
    case Inactive => "inactive"
    case Curiosity => "curiosity"
    case Spirit => "spirit"
    case Opportunity => "opportunity"
    case Perseverance => "perseverance"
  }

  const Flags: set<RoverType> := {All, Active, Inactive}
  const ActiveRovers: set<RoverType> := {Curiosity, Perseverance}
  const InactiveRovers: set<RoverType> := {Spirit, Opportunity}
  const ConcreteRovers: set<RoverType> := {Curiosity, Spirit, Opportunity, Perseverance}

  /** The flags and the concrete rovers split the enumeration in two. */
  lemma FlagsPartitionEnumeration()
    ensures Flags !! ConcreteRovers
    ensures forall r: RoverType :: r in Flags || r in ConcreteRovers
  {
    forall r: RoverType
      ensures r in Flags || r in ConcreteRovers
    {
      match r
      case All =>
      case Active =>
      case Inactive =>
      case Curiosity =>
      case Spirit =>
      case Opportunity =>
      case Perseverance =>
    }
  }

  /** The active and inactive groups split the concrete rovers in two. */
  lemma GroupsPartitionRovers()
    ensures ActiveRovers !! InactiveRovers
    ensures ActiveRovers + InactiveRovers == ConcreteRovers
  {
  }

  /** Distinct members have distinct string values, so catalog keys and URLs never collide. */
  lemma ValueInjective(a: RoverType, b: RoverType)
    ensures Value(a) == Value(b) <==> a == b
  {
  }

  /** The set of rovers to query for a request that may mix concrete rovers and flags. */
  function RemoveRoverFlags(rovers: set<RoverType>): (r: set<RoverType>)
    ensures r !! Flags
    ensures r <= ConcreteRovers
    ensures rovers !! Flags ==> r == rovers
    ensures All in rovers ==> r == ConcreteRovers
    ensures All !in rovers ==> rovers - Flags <= r
  {
    FlagsPartitionEnumeration();
    var usedFlags := rovers * Flags;
    if usedFlags == {} then
      rovers
    else if All in usedFlags then
      ConcreteRovers
    else
      var concrete := rovers - usedFlags;
      var withActive := if Active in usedFlags then concrete + ActiveRovers else concrete;
      if Inactive in usedFlags then withActive + InactiveRovers else withActive
  }

  /** Membership in the expansion, stated rover by rover: a concrete rover is
      queried exactly when it was named, or ALL was given, or a group flag
      naming its group was given. */
  lemma {:induction false} RemoveRoverFlagsMembership(rovers: set<RoverType>, x: RoverType)
    ensures x in RemoveRoverFlags(rovers) <==>
      x in ConcreteRovers &&
      (x in rovers || All in rovers
       || (Active in rovers && x in ActiveRovers)
       || (Inactive in rovers && x in InactiveRovers))
  {
    if rovers * Flags == {} {
      assert All !in rovers * Flags && Active !in rovers * Flags && Inactive !in rovers * Flags;
      assert All in Flags && Active in Flags && Inactive in Flags;
      if x in rovers {
        assert x !in Flags;
      }
    }
  }

  /** Without ALL, the flags are dropped and replaced by the groups they name. */
  lemma {:induction false} RemoveRoverFlagsWithoutAll(rovers: set<RoverType>)
    requires All !in rovers
    ensures RemoveRoverFlags(rovers) ==
      (rovers - Flags)
      + (if Active in rovers then ActiveRovers else {})
      + (if Inactive in rovers then InactiveRovers else {})
  {
    forall x
      ensures x in RemoveRoverFlags(rovers) <==>
        x in (rovers - Flags)
          + (if Active in rovers then ActiveRovers else {})
          + (if Inactive in rovers then InactiveRovers else {})
    {
      RemoveRoverFlagsMembership(rovers, x);
    }
  }

  /** Expanding an already expanded set changes nothing. */
  lemma RemoveRoverFlagsIdempotent(rovers: set<RoverType>)
    ensures RemoveRoverFlags(RemoveRoverFlags(rovers)) == RemoveRoverFlags(rovers)
  {
  }

  /** A concrete rover listed next to a flag that does not cover it is kept. */
  lemma SpiritWithActive()
    ensures RemoveRoverFlags({Spirit, Active}) == {Spirit, Curiosity, Perseverance}
  {
  }
}
