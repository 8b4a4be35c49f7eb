/** AsteroidDiscoveryService: a simulated deep-space scan. One uniform draw in [0, 1) is compared
    with the discovery rate; when the scan finds something, the active generator makes one
    asteroid and the store saves it. */
module AsteroidDiscoveryService {
  import opened Wrappers
  import opened Domain
  import opened AsteroidRepository
  import opened AsteroidGenerator

  /** `asteroid.discovery.discovery-rate` when it is not configured. */
  const DEFAULT_DISCOVERY_RATE: real := 0.7

  /** The gate: the scan comes back empty exactly when the draw exceeds the rate. With draws
      in [0, 1), a rate of 1 or more always finds something, a negative rate never does, and
      a rate of 0 finds something only on the draw 0. */
  function ScanFindsSomething(scan: real, rate: real): (found: bool)
    ensures 0.0 <= scan < 1.0 && 1.0 <= rate ==> found
    ensures 0.0 <= scan && rate < 0.0 ==> !found
    ensures 0.0 <= scan && rate == 0.0 ==> (found <==> scan == 0.0)
  {
    !(scan > rate)
  }

  class AsteroidDiscoveryService {
    const asteroidGenerator: GeneratorMode
    const asteroidRepository: InMemoryAsteroidRepository
    const discoveryRate: real

    /** The service keeps a consistent store. */
    ghost predicate Valid()
      reads this, asteroidRepository
    {
      asteroidRepository.Valid()
    }

    /** The injected generator and store, and the configured rate or 0.7 when none is set. */
    constructor (asteroidGenerator: GeneratorMode, asteroidRepository: InMemoryAsteroidRepository, configuredRate: Option<real>)
      requires asteroidRepository.Valid()
      ensures Valid()
      ensures this.asteroidGenerator == asteroidGenerator
      ensures this.asteroidRepository == asteroidRepository
      ensures configuredRate.None? ==> discoveryRate == DEFAULT_DISCOVERY_RATE
      ensures configuredRate.Some? ==> discoveryRate == configuredRate.value
    {
      this.asteroidGenerator := asteroidGenerator;
      this.asteroidRepository := asteroidRepository;
      this.discoveryRate := if configuredRate.Some? then configuredRate.value else DEFAULT_DISCOVERY_RATE;
    }

    /** `discoverNewAsteroid`: when the draw exceeds the rate the result is empty, the generator
        is not called and the store is unchanged. Otherwise the generator runs once; a failure
        of it propagates uncaught and nothing is saved; on success the asteroid is saved once,
        and the result is the saved copy carrying the store's next id. */
    method DiscoverNewAsteroid(scan: real, entropy: Entropy, collaborators: Collaborators)
      returns (r: Result<Option<Asteroid>, Failure>)
      requires Valid() && EntropyInRange(entropy)
      modifies asteroidRepository
      ensures Valid()
      ensures !ScanFindsSomething(scan, discoveryRate) ==>
                r == Success(None) && unchanged(asteroidRepository)
      ensures ScanFindsSomething(scan, discoveryRate) && Generated(asteroidGenerator, entropy, collaborators).Failure? ==>
                r == Failure(Generated(asteroidGenerator, entropy, collaborators).error) && unchanged(asteroidRepository)
      ensures ScanFindsSomething(scan, discoveryRate) && Generated(asteroidGenerator, entropy, collaborators).Success? ==>
                && asteroidRepository.idSequence == old(asteroidRepository.idSequence) + 1
                && r == Success(Some(Generated(asteroidGenerator, entropy, collaborators).value.WithId(asteroidRepository.idSequence)))
                && asteroidRepository.asteroids == old(asteroidRepository.asteroids) + [r.value.value]
                && asteroidRepository.FindById(asteroidRepository.idSequence) == r.value
    {
      if scan > discoveryRate {
        return Success(None);
      }
      var newAsteroid := Generate(asteroidGenerator, entropy, collaborators);
      if newAsteroid.Failure? {
        return Failure(newAsteroid.error);
      }
      var newAsteroidWithId := asteroidRepository.Save(newAsteroid.value);
      r := Success(Some(newAsteroidWithId));
    }
  }
}
