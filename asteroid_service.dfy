/** The asteroid service: lookups that turn an absent result into a NotFound failure, the
    valuation of an asteroid's resources at market prices, and the profitability filter. */
module AsteroidService {
  import opened Wrappers
  import opened Seqs
  import opened Text
  import opened Domain
  import opened MarketRepository
  import opened AsteroidRepository

  // ---------------------------------------------------------------- valuation

  /** What one resource kind adds to the total: price times quantity when the map lists the
      kind, nothing otherwise. */
  function Contribution(market: MiningMarket, resources: map<ResourceType, nat>, r: ResourceType): int
  {
    if r in resources then market.GetPriceFor(r) * resources[r] else 0
  }

  /** The sum of the contributions of the given kinds. */
  function ValueOver(kinds: seq<ResourceType>, resources: map<ResourceType, nat>, market: MiningMarket): int
  {
    if kinds == [] then 0 else Contribution(market, resources, kinds[0]) + ValueOver(kinds[1..], resources, market)
  }

  /** The value of a resource map at the market's prices. */
  function ResourcesValue(resources: map<ResourceType, nat>, market: MiningMarket): int
  {
    ValueOver(RESOURCE_TYPES, resources, market)
  }

  /** `calculateTotalValue`: the stream over the map's entries summing price times quantity.
      The entry order of a Java map is unspecified; the result is shown below to equal the
      order-free SumOfEntries. */
  function CalculateTotalValue(asteroid: Asteroid, market: MiningMarket): (total: int)
    ensures asteroid.resources == map[] ==> total == 0
    ensures total == SumOfEntries(asteroid.resources, market)
  {
    TotalIsSumOfEntries(asteroid.resources, market);
    ResourcesValue(asteroid.resources, market)
  }

  /** Reference definition: price times quantity summed over the entries of the map, taken in
      an arbitrary order. */
  ghost function SumOfEntries(resources: map<ResourceType, nat>, market: MiningMarket): int
    decreases |resources|
  {
    if resources == map[] then 0
    else
      var k :| k in resources;
      RemoveKeyCard(resources, k);
      market.GetPriceFor(k) * resources[k] + SumOfEntries(resources - {k}, market)
  }

  lemma RemoveKeyCard(m: map<ResourceType, nat>, k: ResourceType)
    requires k in m
    ensures |m - {k}| == |m| - 1
  {
    assert (m - {k}).Keys == m.Keys - {k};
  }

  ghost predicate Distinct(kinds: seq<ResourceType>)
  {
    forall i, j :: 0 <= i < j < |kinds| ==> kinds[i] != kinds[j]
  }

  /** Taking one entry out of the map lowers the value over a duplicate-free list of kinds by
      exactly that entry's contribution (or nothing, when the list does not name the kind). */
  lemma {:induction false} ValueOverWithout(kinds: seq<ResourceType>, m: map<ResourceType, nat>, k: ResourceType, market: MiningMarket)
    requires k in m
    requires Distinct(kinds)
    ensures ValueOver(kinds, m, market)
         == (if k in kinds then market.GetPriceFor(k) * m[k] else 0) + ValueOver(kinds, m - {k}, market)
  {
    if kinds != [] {
      assert forall i :: 0 <= i < |kinds[1..]| ==> kinds[1..][i] == kinds[i + 1];
      ValueOverWithout(kinds[1..], m, k, market);
      assert kinds[0] == k ==> k !in kinds[1..];
      assert k in kinds <==> kinds[0] == k || k in kinds[1..];
    }
  }

  lemma {:induction false} ValueOverEmpty(kinds: seq<ResourceType>, market: MiningMarket)
    ensures ValueOver(kinds, map[], market) == 0
  {
    if kinds != [] {
      ValueOverEmpty(kinds[1..], market);
    }
  }

  /** The enum-order sum equals the order-free sum over entries. */
  lemma {:induction false} TotalIsSumOfEntries(m: map<ResourceType, nat>, market: MiningMarket)
    ensures ResourcesValue(m, market) == SumOfEntries(m, market)
    decreases |m|
  {
    if m == map[] {
      ValueOverEmpty(RESOURCE_TYPES, market);
    } else {
      forall k | k in m
        ensures ResourcesValue(m, market) == market.GetPriceFor(k) * m[k] + SumOfEntries(m - {k}, market)
      {
        assert RESOURCE_TYPES[Ordinal(k)] == k;
        ValueOverWithout(RESOURCE_TYPES, m, k, market);
        RemoveKeyCard(m, k);
        TotalIsSumOfEntries(m - {k}, market);
      }
    }
  }

  lemma {:induction false} ValueOverDisjointUnion(kinds: seq<ResourceType>, m1: map<ResourceType, nat>, m2: map<ResourceType, nat>, market: MiningMarket)
    requires m1.Keys !! m2.Keys
    ensures ValueOver(kinds, m1 + m2, market) == ValueOver(kinds, m1, market) + ValueOver(kinds, m2, market)
  {
    if kinds != [] {
      ValueOverDisjointUnion(kinds[1..], m1, m2, market);
    }
  }

  /** The value of two resource maps with no kind in common is the sum of their values. */
  lemma ValueAdditive(m1: map<ResourceType, nat>, m2: map<ResourceType, nat>, market: MiningMarket)
    requires m1.Keys !! m2.Keys
    ensures ResourcesValue(m1 + m2, market) == ResourcesValue(m1, market) + ResourcesValue(m2, market)
  {
    ValueOverDisjointUnion(RESOURCE_TYPES, m1, m2, market);
  }

  /** Adding a kind the map lacks raises the value by exactly price times quantity; a kind
      absent from the map contributes nothing. */
  lemma AddingAKind(m: map<ResourceType, nat>, k: ResourceType, q: nat, market: MiningMarket)
    requires k !in m
    ensures ResourcesValue(m[k := q], market) == ResourcesValue(m, market) + market.GetPriceFor(k) * q
  {
    TotalIsSumOfEntries(map[k := q], market);
    TotalIsSumOfEntries(map[], market);
    assert map[k := q] - {k} == map[];
    ValueAdditive(m, map[k := q], market);
    assert m + map[k := q] == m[k := q];
  }

  /** The valuations of the four bootstrap asteroids at the in-memory prices; the first is
      500 * 15 + 10 * 120. */
  lemma SeedValues()
    ensures CalculateTotalValue(SEED_ASTEROIDS[0], InMemoryMarket()) == 8700
    ensures CalculateTotalValue(SEED_ASTEROIDS[1], InMemoryMarket()) == 9000
    ensures CalculateTotalValue(SEED_ASTEROIDS[2], InMemoryMarket()) == 8040
    ensures CalculateTotalValue(SEED_ASTEROIDS[3], InMemoryMarket()) == 2250000
  {
  }

  /** The value over the enum, written out kind by kind. */
  lemma ValueOverUnfolded(m: map<ResourceType, nat>, market: MiningMarket)
    ensures ResourcesValue(m, market) == Contribution(market, m, IRON) + Contribution(market, m, GOLD)
                                       + Contribution(market, m, PLATINUM) + Contribution(market, m, KRYPTONITE)
  {
    assert RESOURCE_TYPES[1..] == [GOLD, PLATINUM, KRYPTONITE];
    assert [GOLD, PLATINUM, KRYPTONITE][1..] == [PLATINUM, KRYPTONITE];
    assert [PLATINUM, KRYPTONITE][1..] == [KRYPTONITE];
    assert [KRYPTONITE][1..] == [];
    assert ValueOver([KRYPTONITE], m, market) == Contribution(market, m, KRYPTONITE);
    assert ValueOver([PLATINUM, KRYPTONITE], m, market)
        == Contribution(market, m, PLATINUM) + ValueOver([KRYPTONITE], m, market);
    assert ValueOver([GOLD, PLATINUM, KRYPTONITE], m, market)
        == Contribution(market, m, GOLD) + ValueOver([PLATINUM, KRYPTONITE], m, market);
    assert ValueOver(RESOURCE_TYPES, m, market)
        == Contribution(market, m, IRON) + ValueOver([GOLD, PLATINUM, KRYPTONITE], m, market);
  }

  /** With quantities below 100000 (the range a generator draws from), the valuation at the
      in-memory prices stays within Java's 32-bit `int`, so `mapToInt(...).sum()` does not
      wrap around. */
  lemma GeneratedValueFitsInt(m: map<ResourceType, nat>)
    requires forall k :: k in m ==> m[k] < 100000
    ensures 0 <= ResourcesValue(m, InMemoryMarket()) < 0x8000_0000
  {
    var market := InMemoryMarket();
    ValueOverUnfolded(m, market);
    forall k ensures 0 <= Contribution(market, m, k) <= 1500 * 99999 {
      InMemoryPriceBounds(k);
    }
  }

  // ---------------------------------------------------------------- queries

  /** `getAllAsteroids`: the store's list, unchanged. */
  function GetAllAsteroids(repo: InMemoryAsteroidRepository): (all: seq<Asteroid>)
    reads repo
    ensures all == repo.FindAll()
  {
    repo.FindAll()
  }

  /** `getAsteroidById`: the store's match, or a NotFound failure naming the id. */
  function GetAsteroidById(repo: InMemoryAsteroidRepository, id: int): (r: Result<Asteroid, Failure>)
    reads repo
    ensures repo.FindById(id).Some? ==> r == Success(repo.FindById(id).value)
    ensures repo.FindById(id).None? ==> r == Failure(NotFound("Asteroid with ID " + IntToDecimal(id) + " not found!"))
    ensures r.Success? <==> exists i :: 0 <= i < |repo.asteroids| && repo.asteroids[i].id == Some(id)
  {
    match repo.FindById(id)
    case Some(a) => Success(a)
    case None => Failure(NotFound("Asteroid with ID " + IntToDecimal(id) + " not found!"))
  }

  /** `getAsteroidByName`: the store's match, or a NotFound failure naming the name. */
  function GetAsteroidByName(repo: InMemoryAsteroidRepository, name: string): (r: Result<Asteroid, Failure>)
    reads repo
    ensures repo.FindByName(name).Some? ==> r == Success(repo.FindByName(name).value)
    ensures repo.FindByName(name).None? ==> r == Failure(NotFound("Asteroid with name " + name + " not found!"))
    ensures r.Success? <==> exists i :: 0 <= i < |repo.asteroids| && repo.asteroids[i].name == name
  {
    match repo.FindByName(name)
    case Some(a) => Success(a)
    case None => Failure(NotFound("Asteroid with name " + name + " not found!"))
  }

  /** `getAsteroidsInRange`: the store's answer, unchanged. */
  function GetAsteroidsInRange(repo: InMemoryAsteroidRepository, range: real): (r: seq<Asteroid>)
    reads repo
    ensures r == repo.FindInRange(range)
  {
    repo.FindInRange(range)
  }

  /** `getAsteroidsWithResource`: the store's answer, unchanged. */
  function GetAsteroidsWithResource(repo: InMemoryAsteroidRepository, resource: ResourceType): (r: seq<Asteroid>)
    reads repo
    ensures r == repo.FindWithResource(resource)
  {
    repo.FindWithResource(resource)
  }

  /** `calculateTotalValue(asteroid) >= minTotalValue` as a stream predicate. */
  function WorthAtLeast(market: MiningMarket, minTotalValue: int): Asteroid -> bool
  {
    (a: Asteroid) => CalculateTotalValue(a, market) >= minTotalValue
  }

  /** `getProfitableAsteroids`: exactly the stored asteroids valued at least `minTotalValue`,
      in stored order. */
  function GetProfitableAsteroids(repo: InMemoryAsteroidRepository, market: MiningMarket, minTotalValue: int): (r: seq<Asteroid>)
    reads repo
    ensures IsSubsequence(r, repo.FindAll())
    ensures forall a :: a in r <==> a in repo.FindAll() && CalculateTotalValue(a, market) >= minTotalValue
    ensures forall a :: multiset(r)[a] ==
                        if CalculateTotalValue(a, market) >= minTotalValue then multiset(repo.FindAll())[a] else 0
  {
    FilterMembers(repo.FindAll(), WorthAtLeast(market, minTotalValue));
    FilterIsSubsequence(repo.FindAll(), WorthAtLeast(market, minTotalValue));
    FilterCounts(repo.FindAll(), WorthAtLeast(market, minTotalValue));
    Filter(repo.FindAll(), WorthAtLeast(market, minTotalValue))
  }

  /** Raising the threshold can only drop asteroids: the stricter answer is a subsequence of
      the looser one, and no longer. */
  lemma ProfitableMonotone(repo: InMemoryAsteroidRepository, market: MiningMarket, lower: int, higher: int)
    requires lower <= higher
    ensures IsSubsequence(GetProfitableAsteroids(repo, market, higher), GetProfitableAsteroids(repo, market, lower))
    ensures |GetProfitableAsteroids(repo, market, higher)| <= |GetProfitableAsteroids(repo, market, lower)|
  {
    FilterStronger(repo.FindAll(), WorthAtLeast(market, higher), WorthAtLeast(market, lower));
    SubsequenceLength(GetProfitableAsteroids(repo, market, higher), GetProfitableAsteroids(repo, market, lower));
  }
}
