/** The domain records of the asteroid-mining service: the two closed enumerations, the
    immutable asteroid record and the failures the core signals. */
module Domain {
  import opened Wrappers

  /** Extractable materials, in declaration order. */
  datatype ResourceType = IRON | GOLD | PLATINUM | KRYPTONITE

  /** Mining danger levels, from safest to most dangerous. */
  datatype RiskProfile = SAFE | CAUTION | VOLATILE | LETHAL

  /** `ResourceType.values()`. */
  const RESOURCE_TYPES: seq<ResourceType> := [IRON, GOLD, PLATINUM, KRYPTONITE]

  /** `RiskProfile.values()`. */
  const RISK_PROFILES: seq<RiskProfile> := [SAFE, CAUTION, VOLATILE, LETHAL]

  /** `Enum.ordinal()`: the position of a resource type in RESOURCE_TYPES. */
  function Ordinal(r: ResourceType): (i: nat)
    ensures i < |RESOURCE_TYPES| && RESOURCE_TYPES[i] == r
  {
    match r
    case IRON => 0
    case GOLD => 1
    case PLATINUM => 2
    case KRYPTONITE => 3
  }

  /** `Enum.name()`. */
  function ResourceName(r: ResourceType): string
  {
    match r
    case IRON => "IRON"
    case GOLD => "GOLD"
    case PLATINUM => "PLATINUM"
    case KRYPTONITE => "KRYPTONITE"
  }

  /** An asteroid record. `id` is None until the store assigns one; `resources` maps a kind to
      its quantity; `distanceInLightYears` is the Java double, taken as a real. */
  datatype Asteroid = Asteroid(
    id: Option<int>,
    name: string,
    riskProfile: RiskProfile,
    resources: map<ResourceType, nat>,
    distanceInLightYears: real)
  {
    /** The record's `withId` copy: the same asteroid carrying the given id. */
    function WithId(newId: int): (a: Asteroid)
      ensures a.id == Some(newId)
      ensures a.name == name && a.riskProfile == riskProfile
      ensures a.resources == resources && a.distanceInLightYears == distanceInLightYears
    {
      this.(id := Some(newId))
    }
  }

  /** The exceptions raised in the core: a lookup that matched nothing
      (AsteroidNotFoundException) and a failing call into a generation collaborator. */
  datatype Failure =
    | NotFound(message: string)
    | GenerationFailed(cause: string)
}
