/** LocalAsteroidGenerator: a name made of a fixed prefix and the start of a random UUID, and
    procedural attributes whose resource loop stops at the first true coin. */
module LocalAsteroidGenerator {
  import opened Wrappers
  import opened Text
  import opened Domain
  import opened Procedural

  const NAME_PREFIX: string := "Asteroid "

  /** The canonical text form of a UUID, as `UUID.toString()` prints it: 36 characters in
      groups of 8-4-4-4-12 lower-case hex digits separated by hyphens (section 3 of RFC 4122). */
  predicate IsUuidString(u: string)
  {
    |u| == 36 && forall i :: 0 <= i < 36 ==> if i == 8 || i == 13 || i == 18 || i == 23 then u[i] == '-' else IsLowerHexDigit(u[i])
  }

  /** `"Asteroid " + uuid.substring(0, 6)`. */
  function LocalName(uuid: string): (name: string)
    requires IsUuidString(uuid)
    ensures |name| == 15 && name[..9] == NAME_PREFIX
    ensures forall i :: 9 <= i < 15 ==> IsLowerHexDigit(name[i])
  {
    NAME_PREFIX + uuid[..6]
  }

  /** What `generate()` builds from the given UUID and draws: the 15-character name is
      "Asteroid " and six hex digits, the drawn risk and distance are used, and the resource
      kinds are the first LeadingFalse(coins) ones of the enum order, with their drawn
      quantities. */
  function LocalGenerated(uuid: string, draws: AttributeDraws): (asteroid: Asteroid)
    requires IsUuidString(uuid) && DrawsInRange(draws)
    ensures |asteroid.name| == 15 && asteroid.name[..9] == NAME_PREFIX
    ensures forall i :: 9 <= i < 15 ==> IsLowerHexDigit(asteroid.name[i])
    ensures asteroid.riskProfile == RISK_PROFILES[draws.riskIndex]
    ensures asteroid.distanceInLightYears == draws.distance
    ensures forall r :: r in asteroid.resources <==> Ordinal(r) < LeadingFalse(draws.coins)
    ensures forall r :: r in asteroid.resources ==> asteroid.resources[r] == draws.amounts[Ordinal(r)]
    ensures ProcedurallyBounded(asteroid)
  {
    BuiltIsBounded(LocalName(uuid), draws, LeadingFalse(draws.coins));
    Build(LocalName(uuid), draws, PrefixResources(draws.coins, draws.amounts))
  }

  /** `generate`: builds the name from the UUID, draws the distance and the risk, runs the
      `break` loop for the resources and returns exactly the asteroid LocalGenerated
      describes. */
  method Generate(uuid: string, draws: AttributeDraws) returns (asteroid: Asteroid)
    requires IsUuidString(uuid) && DrawsInRange(draws)
    ensures asteroid == LocalGenerated(uuid, draws)
  {
    var name := NAME_PREFIX + uuid[..6];
    var distance := draws.distance;
    var risk := RISK_PROFILES[draws.riskIndex];
    var resources := GeneratePrefixResources(draws.coins, draws.amounts);
    asteroid := Asteroid(None, name, risk, resources, distance);
  }
}
