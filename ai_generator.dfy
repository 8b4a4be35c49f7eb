/** AiAsteroidGenerator: the whole asteroid comes from a structured-output collaborator told the
    valid resource-type names; when that call fails in any way, the random factory builds a
    fallback asteroid named after the current time. */
module AiAsteroidGenerator {
  import opened Wrappers
  import opened Text
  import opened Domain
  import opened Procedural
  import RandomAsteroidFactory

  /** The collaborator that is given the resource-type list for the prompt template and answers
      with a parsed asteroid, or fails (network, malformed JSON, token limit, ...). */
  type EntityChat = string -> Result<Asteroid, Failure>

  /** The prefix of every fallback name. */
  const FALLBACK_PREFIX: string := "Fallback-Asteroid-"

  /** `ResourceType.values()` mapped to `Enum::name` and joined with ", ": the four kinds'
      names in declaration order. */
  function ValidResources(): (s: string)
    ensures s == "IRON, GOLD, PLATINUM, KRYPTONITE"
  {
    var names := seq(|RESOURCE_TYPES|, i requires 0 <= i < |RESOURCE_TYPES| => ResourceName(RESOURCE_TYPES[i]));
    assert names == ["IRON", "GOLD", "PLATINUM", "KRYPTONITE"];
    JoinOfFour("IRON", "GOLD", "PLATINUM", "KRYPTONITE", ", ");
    Join(names, ", ")
  }

  /** `"Fallback-Asteroid-" + System.currentTimeMillis()`. */
  function FallbackName(millis: int): (name: string)
    ensures FALLBACK_PREFIX <= name && |name| > |FALLBACK_PREFIX|
    ensures millis >= 0 ==> forall i :: |FALLBACK_PREFIX| <= i < |name| ==> IsDecimalDigit(name[i])
  {
    FALLBACK_PREFIX + IntToDecimal(millis)
  }

  /** Fallbacks made at different (non-negative) clock readings get different names. */
  lemma FallbackNamesDistinct(m: nat, n: nat)
    requires m != n
    ensures FallbackName(m) != FallbackName(n)
  {
    if FallbackName(m) == FallbackName(n) {
      assert NatToDecimal(m) == FallbackName(m)[|FALLBACK_PREFIX|..];
      assert NatToDecimal(n) == FallbackName(n)[|FALLBACK_PREFIX|..];
      DecimalInjective(m, n);
    }
  }

  /** What `generate()` returns: the collaborator's asteroid exactly as parsed (its id, name,
      distance and quantities are not checked), or, on any failure, the factory's asteroid named
      after the clock reading, which then obeys the factory's bounds. An asteroid is always
      returned. */
  function AiGenerated(chat: EntityChat, millis: int, draws: AttributeDraws): (asteroid: Asteroid)
    requires DrawsInRange(draws)
    ensures chat(ValidResources()).Success? ==> asteroid == chat(ValidResources()).value
    ensures chat(ValidResources()).Failure? ==>
              && asteroid == RandomAsteroidFactory.CreatedWithName(FallbackName(millis), draws)
              && asteroid.name == FallbackName(millis)
              && FALLBACK_PREFIX <= asteroid.name
              && ProcedurallyBounded(asteroid)
              && forall r :: r in asteroid.resources <==> !draws.coins[Ordinal(r)]
  {
    match chat(ValidResources())
    case Success(parsed) => parsed
    case Failure(_) => RandomAsteroidFactory.CreatedWithName(FallbackName(millis), draws)
  }

  /** `generate`: asks the collaborator once and returns its asteroid; every failure is
      swallowed and the factory is called for the fallback instead. The outcome is exactly
      AiGenerated's. */
  method Generate(chat: EntityChat, millis: int, draws: AttributeDraws) returns (asteroid: Asteroid)
    requires DrawsInRange(draws)
    ensures asteroid == AiGenerated(chat, millis, draws)
  {
    var validResources := ValidResources();
    var reply := chat(validResources);
    if reply.Success? {
      return reply.value;
    }
    asteroid := RandomAsteroidFactory.CreateWithName(FallbackName(millis), draws);
  }
}
