/** Procedural attributes shared by every generator: the random draws one generation consumes,
    the asteroid builder, and the two resource-map loops found in the source (an independent
    coin per kind with `continue`, and a coin that ends the loop with `break`). */
module Procedural {
  import opened Wrappers
  import opened Domain

  /** `nextInt(100_000)`: quantities are drawn below this bound. */
  const QUANTITY_BOUND: nat := 100_000

  /** `nextDouble(100.)`: distances are drawn below this bound. */
  const DISTANCE_BOUND: real := 100.0

  /** The random values one attribute generation draws: the distance, the index into
      `RiskProfile.values()`, and per resource kind (by enum position) the `nextBoolean()` coin
      and the `nextInt(100_000)` quantity. */
  datatype AttributeDraws = AttributeDraws(distance: real, riskIndex: int, coins: seq<bool>, amounts: seq<nat>)

  /** The ranges `ThreadLocalRandom` guarantees for these draws. */
  predicate DrawsInRange(d: AttributeDraws)
  {
    && 0.0 <= d.distance < DISTANCE_BOUND
    && 0 <= d.riskIndex < |RISK_PROFILES|
    && |d.coins| == |RESOURCE_TYPES|
    && |d.amounts| == |RESOURCE_TYPES|
    && forall i :: 0 <= i < |d.amounts| ==> d.amounts[i] < QUANTITY_BOUND
  }

  /** The resource kinds before position `n` whose coin came up false, each with its drawn
      quantity. */
  function Rolled(coins: seq<bool>, amounts: seq<nat>, n: nat): (m: map<ResourceType, nat>)
    requires |coins| == |RESOURCE_TYPES| && |amounts| == |RESOURCE_TYPES|
    ensures forall r :: r in m <==> Ordinal(r) < n && !coins[Ordinal(r)]
    ensures forall r :: r in m ==> m[r] == amounts[Ordinal(r)]
  {
    map r | r in RESOURCE_TYPES && Ordinal(r) < n && !coins[Ordinal(r)] :: amounts[Ordinal(r)]
  }

  /** The resource map of the `continue` loop: every kind whose own coin came up false. */
  function IndependentResources(coins: seq<bool>, amounts: seq<nat>): (m: map<ResourceType, nat>)
    requires |coins| == |RESOURCE_TYPES| && |amounts| == |RESOURCE_TYPES|
  {
    Rolled(coins, amounts, |RESOURCE_TYPES|)
  }

  /** The number of false coins before the first true one. */
  function LeadingFalse(coins: seq<bool>): (n: nat)
    ensures n <= |coins|
    ensures forall i :: 0 <= i < n ==> !coins[i]
    ensures n < |coins| ==> coins[n]
  {
    if coins == [] || coins[0] then 0
    else
      var n := 1 + LeadingFalse(coins[1..]);
      assert forall i :: 1 <= i < |coins| ==> coins[i] == coins[1..][i - 1];
      n
  }

  /** The resource map of the `break` loop: the kinds before the first true coin. */
  function PrefixResources(coins: seq<bool>, amounts: seq<nat>): (m: map<ResourceType, nat>)
    requires |coins| == |RESOURCE_TYPES| && |amounts| == |RESOURCE_TYPES|
  {
    Rolled(coins, amounts, LeadingFalse(coins))
  }

  /** `RandomAsteroidFactory.generateRandomResources`: a coin per kind; a true coin skips
      that kind (`continue`), otherwise the kind gets its drawn quantity. */
  method GenerateIndependentResources(coins: seq<bool>, amounts: seq<nat>) returns (resources: map<ResourceType, nat>)
    requires |coins| == |RESOURCE_TYPES| && |amounts| == |RESOURCE_TYPES|
    ensures resources == IndependentResources(coins, amounts)
    ensures forall r :: r in resources <==> !coins[Ordinal(r)]
    ensures forall r :: r in resources ==> resources[r] == amounts[Ordinal(r)]
  {
    resources := map[];
    for i := 0 to |RESOURCE_TYPES|
      invariant resources == Rolled(coins, amounts, i)
    {
      var resource := RESOURCE_TYPES[i];
      if coins[i] {
        continue;
      }
      resources := resources[resource := amounts[i]];
    }
  }

  /** `generateRandomResources` of the local and hybrid generators: a true coin ends the loop
      (`break`), so only the kinds before it get their drawn quantity. */
  method GeneratePrefixResources(coins: seq<bool>, amounts: seq<nat>) returns (resources: map<ResourceType, nat>)
    requires |coins| == |RESOURCE_TYPES| && |amounts| == |RESOURCE_TYPES|
    ensures resources == PrefixResources(coins, amounts)
    ensures forall r :: r in resources <==> Ordinal(r) < LeadingFalse(coins)
    ensures forall r :: r in resources ==> resources[r] == amounts[Ordinal(r)]
  {
    resources := map[];
    for i := 0 to |RESOURCE_TYPES|
      invariant i <= LeadingFalse(coins)
      invariant resources == Rolled(coins, amounts, i)
    {
      var resource := RESOURCE_TYPES[i];
      if coins[i] {
        break;
      }
      resources := resources[resource := amounts[i]];
    }
  }

  /** `Asteroid.builder()...build()`: only the name, risk, distance and resources are set, so
      the id stays unset; the risk is the profile at the drawn index and the distance the drawn
      one, in [0, 100). */
  function Build(name: string, draws: AttributeDraws, resources: map<ResourceType, nat>): (a: Asteroid)
    requires DrawsInRange(draws)
    ensures a.id == None && a.name == name && a.resources == resources
    ensures a.riskProfile == RISK_PROFILES[draws.riskIndex]
    ensures a.distanceInLightYears == draws.distance && 0.0 <= a.distanceInLightYears < DISTANCE_BOUND
  {
    Asteroid(None, name, RISK_PROFILES[draws.riskIndex], resources, draws.distance)
  }

  /** What every procedurally built asteroid satisfies: no id yet, a distance in [0, 100), at
      most one entry per kind, and every quantity in [0, 100000). */
  predicate ProcedurallyBounded(a: Asteroid)
  {
    && a.id == None
    && 0.0 <= a.distanceInLightYears < DISTANCE_BOUND
    && |a.resources| <= |RESOURCE_TYPES|
    && forall r :: r in a.resources ==> a.resources[r] < QUANTITY_BOUND
  }

  lemma {:induction false} AtMostFourKinds(m: map<ResourceType, nat>)
    ensures |m| <= |RESOURCE_TYPES|
  {
    var all: set<ResourceType> := {IRON, GOLD, PLATINUM, KRYPTONITE};
    forall r | r in m.Keys ensures r in all {
      assert RESOURCE_TYPES[Ordinal(r)] == r;
    }
    assert m.Keys <= all;
    assert |all| == 4;
    assert |m.Keys| <= |all| by {
      SubsetCard(m.Keys, all);
    }
  }

  lemma SubsetCard<T>(a: set<T>, b: set<T>)
    requires a <= b
    ensures |a| <= |b|
  {
    assert b == a + (b - a);
  }

  /** Any asteroid the builder makes from in-range draws and a rolled map is bounded. */
  lemma {:induction false} BuiltIsBounded(name: string, draws: AttributeDraws, n: nat)
    requires DrawsInRange(draws)
    ensures ProcedurallyBounded(Build(name, draws, Rolled(draws.coins, draws.amounts, n)))
  {
    var m := Rolled(draws.coins, draws.amounts, n);
    AtMostFourKinds(m);
    forall r | r in m ensures m[r] < QUANTITY_BOUND {
      assert m[r] == draws.amounts[Ordinal(r)];
    }
  }

  /** The `continue` loop can produce every one of the 16 key sets. */
  lemma EveryKeySetIsPossible(keys: set<ResourceType>, amounts: seq<nat>)
    requires |amounts| == |RESOURCE_TYPES|
    ensures exists coins :: |coins| == |RESOURCE_TYPES| && IndependentResources(coins, amounts).Keys == keys
  {
    var coins := [IRON !in keys, GOLD !in keys, PLATINUM !in keys, KRYPTONITE !in keys];
    forall r ensures r in IndependentResources(coins, amounts) <==> r in keys {
      assert coins[Ordinal(r)] == (r !in keys);
    }
    assert IndependentResources(coins, amounts).Keys == keys;
  }

  /** The `break` loop only produces prefixes of the enum order: a kind is present only if
      every kind declared before it is present too, and exactly LeadingFalse(coins) kinds are. */
  lemma {:induction false} PrefixKeysArePrefix(coins: seq<bool>, amounts: seq<nat>)
    requires |coins| == |RESOURCE_TYPES| && |amounts| == |RESOURCE_TYPES|
    ensures forall r, s :: r in PrefixResources(coins, amounts) && Ordinal(s) <= Ordinal(r) ==> s in PrefixResources(coins, amounts)
    ensures |PrefixResources(coins, amounts)| == LeadingFalse(coins)
  {
    var m := PrefixResources(coins, amounts);
    var n := LeadingFalse(coins);
    var keys: set<ResourceType> :=
      if n == 0 then {} else if n == 1 then {IRON} else if n == 2 then {IRON, GOLD}
      else if n == 3 then {IRON, GOLD, PLATINUM} else {IRON, GOLD, PLATINUM, KRYPTONITE};
    forall r ensures r in m <==> r in keys {
      assert RESOURCE_TYPES[Ordinal(r)] == r;
    }
    assert m.Keys == keys;
  }

  /** The contrast between the two loops: {GOLD} alone is a possible `continue` outcome but
      never a `break` outcome. */
  lemma BreakCannotSkipAKind(coins: seq<bool>, amounts: seq<nat>)
    requires |coins| == |RESOURCE_TYPES| && |amounts| == |RESOURCE_TYPES|
    ensures PrefixResources(coins, amounts).Keys != {GOLD}
    ensures IndependentResources([true, false, true, true], amounts).Keys == {GOLD}
  {
    PrefixKeysArePrefix(coins, amounts);
    EveryKeySetIsPossible({GOLD}, amounts);
    var m := IndependentResources([true, false, true, true], amounts);
    forall r ensures r in m <==> r == GOLD {
      assert RESOURCE_TYPES[Ordinal(r)] == r;
    }
  }

  /** A listed kind may carry the quantity 0: the draw `nextInt(100_000)` includes it. */
  lemma ZeroQuantityIsPossible()
    ensures IRON in IndependentResources([false, true, true, true], [0, 0, 0, 0])
    ensures IndependentResources([false, true, true, true], [0, 0, 0, 0])[IRON] == 0
  {
  }
}
