/** RandomAsteroidFactory: an asteroid with a given name and procedurally drawn attributes,
    each resource kind decided by its own coin. */
module RandomAsteroidFactory {
  import opened Wrappers
  import opened Domain
  import opened Procedural

  /** What `createWithName(name)` builds from the given draws: the name is kept exactly, the
      risk is `RiskProfile.values()[i]` for the drawn index, the distance is the drawn one, no
      id is set, and the resource map holds exactly the kinds whose coin came up false, with
      their drawn quantities. */
  function CreatedWithName(name: string, draws: AttributeDraws): (asteroid: Asteroid)
    requires DrawsInRange(draws)
    ensures asteroid.name == name && asteroid.id == None
    ensures asteroid.riskProfile == RISK_PROFILES[draws.riskIndex]
    ensures asteroid.distanceInLightYears == draws.distance
    ensures forall r :: r in asteroid.resources <==> !draws.coins[Ordinal(r)]
    ensures forall r :: r in asteroid.resources ==> asteroid.resources[r] == draws.amounts[Ordinal(r)]
    ensures ProcedurallyBounded(asteroid)
  {
    BuiltIsBounded(name, draws, |RESOURCE_TYPES|);
    Build(name, draws, IndependentResources(draws.coins, draws.amounts))
  }

  /** `createWithName`: draws the distance and the risk, runs the `continue` loop for the
      resources and builds exactly the asteroid CreatedWithName describes. */
  method CreateWithName(name: string, draws: AttributeDraws) returns (asteroid: Asteroid)
    requires DrawsInRange(draws)
    ensures asteroid == CreatedWithName(name, draws)
  {
    var distance := draws.distance;
    var risk := RISK_PROFILES[draws.riskIndex];
    var resources := GenerateIndependentResources(draws.coins, draws.amounts);
    asteroid := Asteroid(None, name, risk, resources, distance);
  }
}
