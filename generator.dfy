/** The `AsteroidGenerator` strategy: exactly one of the three generators is active, chosen by
    the `asteroid.generator.mode` setting, and `generate()` runs it on the per-call entropy and
    the collaborators it talks to. */
module AsteroidGenerator {
  import opened Wrappers
  import opened Domain
  import opened Procedural
  import LocalAsteroidGenerator
  import HybridAsteroidGenerator
  import AiAsteroidGenerator

  /** `asteroid.generator.mode`: `local`, `hybrid` or `llm`. */
  datatype GeneratorMode = Local | Hybrid | Llm

  /** What one `generate()` call may consume from its environment: a UUID string, a theme
      index, a clock reading in milliseconds and the procedural draws. */
  datatype Entropy = Entropy(uuid: string, themeIndex: int, millis: int, draws: AttributeDraws)

  /** The ranges the environment guarantees: a canonical UUID string, a theme index in
      `[0, THEMES.size())`, and in-range procedural draws. */
  predicate EntropyInRange(e: Entropy)
  {
    && LocalAsteroidGenerator.IsUuidString(e.uuid)
    && 0 <= e.themeIndex < |HybridAsteroidGenerator.THEMES|
    && DrawsInRange(e.draws)
  }

  /** The text-generation collaborators: the hybrid generator's name chat and the AI
      generator's structured-output chat. */
  datatype Collaborators = Collaborators(
    nameChat: HybridAsteroidGenerator.NameChat,
    entityChat: AiAsteroidGenerator.EntityChat)

  /** What the active generator's `generate()` produces. Only the hybrid generator can fail,
      and exactly when its collaborator does; the local and hybrid generators hand back
      procedurally bounded asteroids without an id, while the AI generator passes on whatever
      its collaborator parsed. */
  function Generated(mode: GeneratorMode, e: Entropy, c: Collaborators): (r: Result<Asteroid, Failure>)
    requires EntropyInRange(e)
    ensures r.Failure? <==>
              mode == Hybrid && c.nameChat(HybridAsteroidGenerator.NamePrompt(HybridAsteroidGenerator.THEMES[e.themeIndex])).Failure?
    ensures r.Success? && mode != Llm ==> ProcedurallyBounded(r.value) && r.value.id == None
  {
    match mode
    case Local => Success(LocalAsteroidGenerator.LocalGenerated(e.uuid, e.draws))
    case Hybrid => HybridAsteroidGenerator.HybridGenerated(e.themeIndex, c.nameChat, e.draws)
    case Llm => Success(AiAsteroidGenerator.AiGenerated(c.entityChat, e.millis, e.draws))
  }

  /** `asteroidGenerator.generate()` on the generator the mode selects. */
  method Generate(mode: GeneratorMode, e: Entropy, c: Collaborators) returns (r: Result<Asteroid, Failure>)
    requires EntropyInRange(e)
    ensures r == Generated(mode, e, c)
  {
    match mode
    case Local =>
      var asteroid := LocalAsteroidGenerator.Generate(e.uuid, e.draws);
      r := Success(asteroid);
    case Hybrid =>
      r := HybridAsteroidGenerator.Generate(e.themeIndex, c.nameChat, e.draws);
    case Llm =>
      var asteroid := AiAsteroidGenerator.Generate(c.entityChat, e.millis, e.draws);
      r := Success(asteroid);
  }
}
