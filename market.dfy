/** The market price provider (MiningMarketRepository) and its in-memory implementation: a
    price table fixed at construction and looked up with a default of 0. */
module MarketRepository {
  import opened Domain

  /** A market is its immutable resource-to-price table. */
  datatype MiningMarket = MiningMarket(resourcePrices: map<ResourceType, int>)
  {
    /** `getPriceFor`: the table's price, or 0 for a kind the table lacks (`getOrDefault`). */
    function GetPriceFor(resource: ResourceType): (price: int)
      ensures resource in resourcePrices ==> price == resourcePrices[resource]
      ensures resource !in resourcePrices ==> price == 0
    {
      if resource in resourcePrices then resourcePrices[resource] else 0
    }

    /** `getMarketPrices`: the whole table. */
    function GetMarketPrices(): (prices: map<ResourceType, int>)
      ensures forall r :: r in prices ==> GetPriceFor(r) == prices[r]
      ensures forall r :: r !in prices ==> GetPriceFor(r) == 0
    {
      resourcePrices
    }
  }

  /** The table the in-memory market is constructed with. */
  const IN_MEMORY_PRICES: map<ResourceType, int> :=
    map[IRON := 15, GOLD := 120, PLATINUM := 300, KRYPTONITE := 1500]

  lemma InMemoryTableIsTotal()
    ensures forall r: ResourceType :: r in IN_MEMORY_PRICES && IN_MEMORY_PRICES[r] > 0
  {
    forall r: ResourceType ensures r in IN_MEMORY_PRICES && IN_MEMORY_PRICES[r] > 0 {
      assert r == RESOURCE_TYPES[Ordinal(r)];
    }
  }

  /** `new InMemoryMarketRepository()`. Every kind is priced and every price is positive, so
      the default of 0 is never used. */
  function InMemoryMarket(): (m: MiningMarket)
    ensures forall r: ResourceType :: r in m.GetMarketPrices() && m.GetPriceFor(r) > 0
    ensures m.GetPriceFor(IRON) == 15 && m.GetPriceFor(GOLD) == 120
    ensures m.GetPriceFor(PLATINUM) == 300 && m.GetPriceFor(KRYPTONITE) == 1500
  {
    InMemoryTableIsTotal();
    MiningMarket(IN_MEMORY_PRICES)
  }

  /** The most any one unit of a resource fetches at the in-memory market. */
  lemma InMemoryPriceBounds(r: ResourceType)
    ensures 15 <= InMemoryMarket().GetPriceFor(r) <= 1500
  {
    match r
    case IRON =>
    case GOLD =>
    case PLATINUM =>
    case KRYPTONITE =>
  }
}
