# Asteroid mining core in Dafny

This project models the in-memory domain layer of the asteroid-mining service:

- the asteroid store, `InMemoryAsteroidRepository`: an ordered list and a counter that hands out ids;
- the price table, `InMemoryMarketRepository`;
- the service built on those two, `AsteroidService`: lookups, valuation, and the profitability filter;
- the discovery scan, `AsteroidDiscoveryService`: a probability gate, then one generate-then-save;
- the four ways an asteroid is made: `RandomAsteroidFactory`, `LocalAsteroidGenerator`,
  `HybridAsteroidGenerator` and `AiAsteroidGenerator`.

The model follows the source's own form:

- The store is a class whose `Save` method changes its list and its counter.
- The discovery service is a class holding the store and calling `Save` on it.
- The resource-map loops are methods with `for` loops, proved against specification functions.
- The queries, the valuation and the name handling are functions.

Values from outside are passed in as parameters:

- the random draws (`Procedural.AttributeDraws`, and the scan draw);
- the UUID string and the clock reading;
- the replies of the text-generation collaborators. Each collaborator is a function from its
  prompt parameter to `Success(reply)` or `Failure(error)`.

Module layout:

| module | what it holds |
|---|---|
| `Wrappers` | `Option` and `Result` |
| `Seqs` | stream `filter`/`findFirst` with their lemmas |
| `Text` | decimal rendering, joining |
| `Domain` | the enums, the `Asteroid` record, failures |
| `MarketRepository` | the price table |
| `AsteroidRepository` | the store |
| `AsteroidService` | the service |
| `Procedural` | draws, resource loops, builder |
| `RandomAsteroidFactory`, `LocalAsteroidGenerator`, `HybridAsteroidGenerator`, `AiAsteroidGenerator` | the four generators |
| `AsteroidGenerator` | the mode-selected strategy |
| `AsteroidDiscoveryService` | the discovery scan |

Where the code and its design documentation disagree, the model follows the code:

- **Generated quantities may be 0.** `nextInt(100_000)` includes 0; see `Procedural.ZeroQuantityIsPossible`.
- **Hybrid naming only strips characters.** There is no length or token check and no fallback
  name, so an empty name is possible; see `HybridAsteroidGenerator.SanitiseCanBeEmpty`. A
  failing collaborator call propagates out of `generate`.
- **The AI generator swallows every failure** and falls back to the factory.
- **The generators differ in their resource loops.** The factory's loop uses `continue`, so each
  kind is an independent coin. The local and hybrid loops use `break`, so their key sets are
  prefixes of the enum order; see `Procedural.BreakCannotSkipAKind`.
- **The snapshot's types do not agree.**
  - `Asteroid` declares a `String` id and `Integer` quantities.
  - Elsewhere the code uses `Long` ids, `ResourceAmount` quantities, `withId` and a builder.
  - `AsteroidService.getAsteroidById` takes a `String`; the store's `findById` takes a `Long`.
  - The model uses one numeric id (`Option<int>`, `None` before saving) and `nat` quantities.
    It models `withId` as a copy with only the id replaced.

## Model

| member | source | states |
|---|---|---|
| AsteroidRepository.InMemoryAsteroidRepository.constructor | src/main/java/com/spacecorp/asteroidmining/repository/InMemoryAsteroidRepository.java:45-63 | the store holds exactly the four bootstrap asteroids with ids 1, 2, 3, 4 in that order, the counter is 4, and the id invariant holds |
| AsteroidRepository.InMemoryAsteroidRepository.FindAll | src/main/java/com/spacecorp/asteroidmining/repository/InMemoryAsteroidRepository.java:66-69 | the result has the stored elements at the same positions |
| AsteroidRepository.InMemoryAsteroidRepository.FindById | src/main/java/com/spacecorp/asteroidmining/repository/InMemoryAsteroidRepository.java:71-76 | None exactly when no stored asteroid has the id; otherwise the first stored asteroid with that id |
| AsteroidRepository.InMemoryAsteroidRepository.FindByName | src/main/java/com/spacecorp/asteroidmining/repository/InMemoryAsteroidRepository.java:78-83 | None exactly when no stored asteroid has the name; otherwise the first stored asteroid with that name |
| AsteroidRepository.InMemoryAsteroidRepository.FindInRange | src/main/java/com/spacecorp/asteroidmining/repository/InMemoryAsteroidRepository.java:85-90 | a subsequence of the store holding exactly the asteroids at distance ≤ d, each as often as it is stored |
| AsteroidRepository.InMemoryAsteroidRepository.FindWithResource | src/main/java/com/spacecorp/asteroidmining/repository/InMemoryAsteroidRepository.java:92-97 | a subsequence of the store holding exactly the asteroids listing the kind, each as often as it is stored |
| AsteroidRepository.InMemoryAsteroidRepository.Save | src/main/java/com/spacecorp/asteroidmining/repository/InMemoryAsteroidRepository.java:99-104 | the counter goes up by one; the input, with only its id replaced by the new counter, is appended once after the untouched old list and returned; findById of that id then gives it; ids stay distinct, increasing and ≤ the counter |
| AsteroidRepository.AppendNextId | src/main/java/com/spacecorp/asteroidmining/repository/InMemoryAsteroidRepository.java:100-103 | appending an asteroid stamped with counter + 1 keeps ids distinct and increasing, and makes it the first match for its id |
| Domain.Asteroid.WithId | src/main/java/com/spacecorp/asteroidmining/repository/InMemoryAsteroidRepository.java:101 | the copy has the new id and every other field unchanged |
| MarketRepository.MiningMarket.GetPriceFor | src/main/java/com/spacecorp/asteroidmining/repository/InMemoryMarketRepository.java:43-45 | the table's price for a listed kind, 0 for an unlisted one |
| MarketRepository.MiningMarket.GetMarketPrices | src/main/java/com/spacecorp/asteroidmining/repository/InMemoryMarketRepository.java:47-50 | every entry of the returned table agrees with GetPriceFor, and kinds outside it are priced 0 |
| MarketRepository.InMemoryMarket | src/main/java/com/spacecorp/asteroidmining/repository/InMemoryMarketRepository.java:33-40 | every kind is priced and positive, so the default 0 is never used; IRON 15, GOLD 120, PLATINUM 300, KRYPTONITE 1500 |
| MarketRepository.InMemoryTableIsTotal | src/main/java/com/spacecorp/asteroidmining/repository/InMemoryMarketRepository.java:34-39 | the constructed table lists all four kinds with positive prices |
| MarketRepository.InMemoryPriceBounds | src/main/java/com/spacecorp/asteroidmining/repository/InMemoryMarketRepository.java:34-39 | every in-memory unit price lies in [15, 1500] |
| AsteroidService.CalculateTotalValue | src/main/java/com/spacecorp/asteroidmining/service/AsteroidService.java:71-78 | the total equals the order-free sum over the map's entries of price times quantity; an empty map gives 0 |
| AsteroidService.TotalIsSumOfEntries | src/main/java/com/spacecorp/asteroidmining/service/AsteroidService.java:72-77 | the enum-order fold equals the sum over the entries taken in any order |
| AsteroidService.ValueOverWithout | src/main/java/com/spacecorp/asteroidmining/service/AsteroidService.java:72-77 | removing one entry lowers the fold by exactly that entry's price times quantity |
| AsteroidService.ValueOverEmpty | src/main/java/com/spacecorp/asteroidmining/service/AsteroidService.java:72-77 | kinds absent from the map contribute nothing: the empty map folds to 0 |
| AsteroidService.ValueOverDisjointUnion | src/main/java/com/spacecorp/asteroidmining/service/AsteroidService.java:72-77 | over any kind list, maps without a kind in common fold to the sum of their folds |
| AsteroidService.ValueAdditive | src/main/java/com/spacecorp/asteroidmining/service/AsteroidService.java:71-78 | the value of two resource maps without a kind in common is the sum of their values |
| AsteroidService.AddingAKind | src/main/java/com/spacecorp/asteroidmining/service/AsteroidService.java:72-77 | adding an absent kind raises the value by exactly its price times its quantity |
| AsteroidService.ValueOverUnfolded | src/main/java/com/spacecorp/asteroidmining/service/AsteroidService.java:72-77 | the value is the four kinds' contributions added up |
| AsteroidService.SeedValues | src/main/java/com/spacecorp/asteroidmining/service/AsteroidService.java:71-78 | the bootstrap asteroids are worth 8700, 9000, 8040 and 2250000 at the in-memory prices |
| AsteroidService.GeneratedValueFitsInt | src/main/java/com/spacecorp/asteroidmining/service/AsteroidService.java:71-78 | with quantities below 100000 the in-memory valuation lies in [0, 2^31), so the Java int sum cannot wrap around |
| AsteroidService.GetAllAsteroids | src/main/java/com/spacecorp/asteroidmining/service/AsteroidService.java:43-45 | the repository's list, unchanged |
| AsteroidService.GetAsteroidById | src/main/java/com/spacecorp/asteroidmining/service/AsteroidService.java:47-50 | the store's match when present; otherwise NotFound("Asteroid with ID <id> not found!"); success exactly when some stored asteroid has the id |
| AsteroidService.GetAsteroidByName | src/main/java/com/spacecorp/asteroidmining/service/AsteroidService.java:52-55 | the store's match when present; otherwise NotFound("Asteroid with name <name> not found!"); success exactly when some stored asteroid has the name |
| AsteroidService.GetAsteroidsInRange | src/main/java/com/spacecorp/asteroidmining/service/AsteroidService.java:57-59 | the repository's answer, unchanged |
| AsteroidService.GetAsteroidsWithResource | src/main/java/com/spacecorp/asteroidmining/service/AsteroidService.java:61-63 | the repository's answer, unchanged |
| AsteroidService.GetProfitableAsteroids | src/main/java/com/spacecorp/asteroidmining/service/AsteroidService.java:65-69 | a subsequence of findAll holding exactly the asteroids valued ≥ the threshold, each as often as it is stored |
| AsteroidService.ProfitableMonotone | src/main/java/com/spacecorp/asteroidmining/service/AsteroidService.java:65-69 | a higher threshold gives a subsequence of the lower threshold's answer, and no more elements |
| Seqs.Filter | src/main/java/com/spacecorp/asteroidmining/repository/InMemoryAsteroidRepository.java:87-89 | never longer than the source, and every kept element satisfies the predicate |
| Seqs.FilterKeepsMatches | src/main/java/com/spacecorp/asteroidmining/repository/InMemoryAsteroidRepository.java:87-89 | every satisfying element of the source is kept |
| Seqs.FilterMembers | src/main/java/com/spacecorp/asteroidmining/repository/InMemoryAsteroidRepository.java:87-89 | an element is in the result exactly when it is in the source and satisfies the predicate |
| Seqs.FilterIsSubsequence | src/main/java/com/spacecorp/asteroidmining/repository/InMemoryAsteroidRepository.java:87-89 | the kept elements are in source order |
| Seqs.FilterCounts | src/main/java/com/spacecorp/asteroidmining/repository/InMemoryAsteroidRepository.java:87-89 | each satisfying element is kept exactly as often as it occurs; others never |
| Seqs.FilterAppend | src/main/java/com/spacecorp/asteroidmining/repository/InMemoryAsteroidRepository.java:87-89 | filtering distributes over concatenation |
| Seqs.FilterStronger | src/main/java/com/spacecorp/asteroidmining/service/AsteroidService.java:66-68 | filtering by a stronger predicate gives a subsequence |
| Seqs.FilterIdempotent | src/main/java/com/spacecorp/asteroidmining/repository/InMemoryAsteroidRepository.java:87-89 | filtering twice equals filtering once |
| Seqs.FilterAll | src/main/java/com/spacecorp/asteroidmining/repository/InMemoryAsteroidRepository.java:87-89 | a list whose every element satisfies the predicate is kept whole |
| Seqs.FilterNone | src/main/java/com/spacecorp/asteroidmining/repository/InMemoryAsteroidRepository.java:87-89 | nothing is kept when no element satisfies the predicate |
| Seqs.FindFirst | src/main/java/com/spacecorp/asteroidmining/repository/InMemoryAsteroidRepository.java:73-75 | None exactly when no element matches; otherwise a matching element with no match before it |
| Seqs.FindFirstAfterMisses | src/main/java/com/spacecorp/asteroidmining/repository/InMemoryAsteroidRepository.java:72-76 | appending a match after non-matches makes it the first match |
| Procedural.Rolled | src/main/java/com/spacecorp/asteroidmining/generator/RandomAsteroidFactory.java:54-57 | the kinds before position n whose coin is false are exactly the keys, each with its drawn quantity |
| Procedural.LeadingFalse | src/main/java/com/spacecorp/asteroidmining/generator/LocalAsteroidGenerator.java:58-61 | every coin before the count is false, and the coin at the count (if any) is true |
| Procedural.GenerateIndependentResources | src/main/java/com/spacecorp/asteroidmining/generator/RandomAsteroidFactory.java:49-59 | the `continue` loop's map: exactly the kinds whose own coin is false, with their drawn quantities |
| Procedural.GeneratePrefixResources | src/main/java/com/spacecorp/asteroidmining/generator/LocalAsteroidGenerator.java:53-63 | the `break` loop's map: exactly the kinds before the first true coin, with their drawn quantities |
| Procedural.AtMostFourKinds | src/main/java/com/spacecorp/asteroidmining/generator/RandomAsteroidFactory.java:52-57 | a resource map never has more than four entries |
| Procedural.BuiltIsBounded | src/main/java/com/spacecorp/asteroidmining/generator/RandomAsteroidFactory.java:32-42 | a built asteroid has no id, a distance in [0, 100), a risk from the four, at most four kinds and quantities in [0, 100000) |
| Procedural.EveryKeySetIsPossible | src/main/java/com/spacecorp/asteroidmining/generator/RandomAsteroidFactory.java:54-57 | each of the 16 key sets comes out of some coin sequence |
| Procedural.PrefixKeysArePrefix | src/main/java/com/spacecorp/asteroidmining/generator/LocalAsteroidGenerator.java:58-61 | the key set is closed under earlier enum positions, and its size is the number of leading false coins |
| Procedural.BreakCannotSkipAKind | src/main/java/com/spacecorp/asteroidmining/generator/HybridAsteroidGenerator.java:79-82 | {GOLD} alone is impossible with `break` but possible with `continue` |
| Procedural.ZeroQuantityIsPossible | src/main/java/com/spacecorp/asteroidmining/generator/RandomAsteroidFactory.java:56 | a listed kind can carry quantity 0 |
| Procedural.Build | src/main/java/com/spacecorp/asteroidmining/generator/RandomAsteroidFactory.java:37-42 | only name, risk, distance and resources are set: no id, the given name and map, the profile at the drawn index, the drawn distance in [0, 100) |
| RandomAsteroidFactory.CreatedWithName | src/main/java/com/spacecorp/asteroidmining/generator/RandomAsteroidFactory.java:29-43 | the name is kept exactly; no id; the drawn risk and distance; keys exactly the kinds whose coin is false, with their drawn quantities; bounded |
| RandomAsteroidFactory.CreateWithName | src/main/java/com/spacecorp/asteroidmining/generator/RandomAsteroidFactory.java:29-43 | drawing the attributes and running the `continue` loop yields exactly CreatedWithName's asteroid |
| LocalAsteroidGenerator.LocalName | src/main/java/com/spacecorp/asteroidmining/generator/LocalAsteroidGenerator.java:35 | 15 characters: "Asteroid " then six lowercase hex digits |
| LocalAsteroidGenerator.LocalGenerated | src/main/java/com/spacecorp/asteroidmining/generator/LocalAsteroidGenerator.java:32-47 | the UUID-prefix name, the drawn risk and distance, keys exactly the kinds before the first true coin with their drawn quantities, bounded |
| LocalAsteroidGenerator.Generate | src/main/java/com/spacecorp/asteroidmining/generator/LocalAsteroidGenerator.java:32-47 | building the name, drawing the attributes and running the `break` loop yields exactly LocalGenerated's asteroid |
| HybridAsteroidGenerator.NamePrompt | src/main/java/com/spacecorp/asteroidmining/generator/HybridAsteroidGenerator.java:47-49 | the prompt is the fixed head, the theme right after it, then " vibe." |
| HybridAsteroidGenerator.NamePromptInjective | src/main/java/com/spacecorp/asteroidmining/generator/HybridAsteroidGenerator.java:45-49 | different themes give different prompts |
| HybridAsteroidGenerator.IsNameChar | src/main/java/com/spacecorp/asteroidmining/generator/HybridAsteroidGenerator.java:53 | only printable ASCII is kept; hyphen and space are kept; underscore, dot, exclamation mark, apostrophe and line break are deleted |
| HybridAsteroidGenerator.SanitiseName | src/main/java/com/spacecorp/asteroidmining/generator/HybridAsteroidGenerator.java:53 | only characters of [a-zA-Z0-9- ] remain, no longer than the reply, and every allowed reply character is kept |
| HybridAsteroidGenerator.SanitiseKeepsOrder | src/main/java/com/spacecorp/asteroidmining/generator/HybridAsteroidGenerator.java:53 | the name is a subsequence of the reply |
| HybridAsteroidGenerator.SanitiseCounts | src/main/java/com/spacecorp/asteroidmining/generator/HybridAsteroidGenerator.java:53 | each allowed character is kept as often as it occurs in the reply; disallowed ones never |
| HybridAsteroidGenerator.SanitiseIdempotent | src/main/java/com/spacecorp/asteroidmining/generator/HybridAsteroidGenerator.java:53 | sanitising twice equals sanitising once |
| HybridAsteroidGenerator.SanitiseKeepsCleanNames | src/main/java/com/spacecorp/asteroidmining/generator/HybridAsteroidGenerator.java:53 | a reply of allowed characters only is kept as it is |
| HybridAsteroidGenerator.SanitiseCanBeEmpty | src/main/java/com/spacecorp/asteroidmining/generator/HybridAsteroidGenerator.java:46-62 | a reply without allowed characters gives the empty name; nothing substitutes a fallback |
| HybridAsteroidGenerator.SanitiseExample | src/main/java/com/spacecorp/asteroidmining/generator/HybridAsteroidGenerator.java:53 | "Ceres_99!" becomes "Ceres99" |
| HybridAsteroidGenerator.HybridGenerated | src/main/java/com/spacecorp/asteroidmining/generator/HybridAsteroidGenerator.java:42-67 | a failing collaborator call propagates unchanged; otherwise the name is the sanitised reply, with the drawn risk and distance, keys a prefix of the enum order, bounded |
| HybridAsteroidGenerator.Generate | src/main/java/com/spacecorp/asteroidmining/generator/HybridAsteroidGenerator.java:42-67 | picking THEMES[i], asking once, sanitising and running the `break` loop yields exactly HybridGenerated's outcome |
| Text.JoinOfFour | src/main/java/com/spacecorp/asteroidmining/generator/AiAsteroidGenerator.java:51 | four parts are joined with one separator between each consecutive pair |
| Text.Join | src/main/java/com/spacecorp/asteroidmining/generator/AiAsteroidGenerator.java:51 | no parts give the empty string and a single part is itself |
| AiAsteroidGenerator.ValidResources | src/main/java/com/spacecorp/asteroidmining/generator/AiAsteroidGenerator.java:49-51 | the enum names joined by ", " in declaration order: "IRON, GOLD, PLATINUM, KRYPTONITE" |
| AiAsteroidGenerator.FallbackName | src/main/java/com/spacecorp/asteroidmining/generator/AiAsteroidGenerator.java:71 | "Fallback-Asteroid-" followed by the clock reading's decimal digits |
| AiAsteroidGenerator.FallbackNamesDistinct | src/main/java/com/spacecorp/asteroidmining/generator/AiAsteroidGenerator.java:71 | different clock readings give different fallback names |
| AiAsteroidGenerator.AiGenerated | src/main/java/com/spacecorp/asteroidmining/generator/AiAsteroidGenerator.java:44-73 | on success the parsed asteroid unchanged; on any failure the factory's asteroid named "Fallback-Asteroid-<millis>", which obeys the factory's bounds; an asteroid is always returned |
| AiAsteroidGenerator.Generate | src/main/java/com/spacecorp/asteroidmining/generator/AiAsteroidGenerator.java:44-73 | asking once and falling back to the factory on failure yields exactly AiGenerated's asteroid |
| AsteroidGenerator.Generated | src/main/java/com/spacecorp/asteroidmining/generator/AsteroidGenerator.java:3-12 | only the hybrid mode can fail, exactly when its collaborator does; local and hybrid asteroids are bounded and have no id |
| AsteroidGenerator.Generate | src/main/java/com/spacecorp/asteroidmining/generator/AsteroidGenerator.java:3-12 | runs the generator the mode selects and returns what it produces |
| AsteroidDiscoveryService.ScanFindsSomething | src/main/java/com/spacecorp/asteroidmining/service/AsteroidDiscoveryService.java:50 | with draws in [0, 1): a rate ≥ 1 always finds, a negative rate never does, a rate 0 finds only on the draw 0 |
| AsteroidDiscoveryService.AsteroidDiscoveryService.constructor | src/main/java/com/spacecorp/asteroidmining/service/AsteroidDiscoveryService.java:30-37 | the injected generator and store; the configured rate, or 0.7 when none is set |
| AsteroidDiscoveryService.AsteroidDiscoveryService.DiscoverNewAsteroid | src/main/java/com/spacecorp/asteroidmining/service/AsteroidDiscoveryService.java:48-58 | a draw above the rate gives an empty result and an unchanged store; a generator failure propagates with the store unchanged; otherwise the asteroid is saved once, the store grows by exactly it, and the result is the saved copy with the next id |
| Text.NatToDecimal | src/main/java/com/spacecorp/asteroidmining/generator/AiAsteroidGenerator.java:71 | at least one decimal digit, with a leading 0 only for 0 |
| Text.DecimalRoundTrip | src/main/java/com/spacecorp/asteroidmining/generator/AiAsteroidGenerator.java:71 | reading the digits back gives the number |
| Text.DecimalInjective | src/main/java/com/spacecorp/asteroidmining/generator/AiAsteroidGenerator.java:71 | different numbers render differently |
| Text.IntToDecimal | src/main/java/com/spacecorp/asteroidmining/service/AsteroidService.java:49 | digits for a non-negative number, a minus sign then digits for a negative one |

## Left out

- Randomness, `UUID.randomUUID()` and `System.currentTimeMillis()` are parameters. The model does not capture their distribution, such as the 70% chance; it captures only their guaranteed ranges.
- Procedural draw order is not modelled: the draws are indexed by enum position instead of being consumed from one stream in order.
- The hybrid user prompt is modelled word for word (`HybridAsteroidGenerator.NamePrompt`) and is what the name collaborator receives. The AI user prompt is reduced to its `resourceTypes` parameter. Both system messages, the `{format}` instructions and the `BeanOutputConverter` JSON schema, and the network are not modelled.
- A hybrid reply without content is covered: `replaceAll` on it throws, and that exception propagates like any other collaborator failure, which is the modelled `Failure`.
- AsteroidGenerator.Generated: an AI reply whose `entity()` is `null` is not modelled. In the source `generate` then returns `null` and `discoverNewAsteroid` fails inside `save`, so the llm mode can fail too; the model's llm mode always succeeds.
- AiAsteroidGenerator.Generate: the parsed asteroid is passed on unchecked. Whatever id, name, distance or quantities the collaborator parsed reach the store, which then replaces the id.
- Logging (`log.debug`, `log.warn`) is left out. It has no effect on results.
- Concurrency is left out. This covers `CopyOnWriteArrayList`, `AtomicLong` and `ThreadLocalRandom`; every call is modelled as sequential.
- AsteroidRepository.InMemoryAsteroidRepository.FindAll returns the stored list as a value, a snapshot at the time of the call. In the source `Collections.unmodifiableList` is a live view: saves made later show through a list a caller still holds.
- Distances and rates are exact reals, not IEEE doubles.
- AsteroidService.CalculateTotalValue: the sum is an unbounded integer, not Java's wrapping `int`. `AsteroidService.GeneratedValueFitsInt` shows no wrap-around for generated quantities at in-memory prices. Larger quantities stored by other means could overflow in the source.
- `AsteroidNotFoundException` is modelled as the `NotFound` failure value. `AiGenerationException` and `AsteroidDiscoveryException` are never thrown by the modelled code, so they do not appear.
- `AsteroidJdbcRepository`, the controllers and the global exception handler are not part of this model.
- The mode-based choice of the active generator (`@ConditionalOnProperty`) is modelled as the `GeneratorMode` value the discovery service holds.
