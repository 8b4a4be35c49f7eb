/** HybridAsteroidGenerator: the name comes from a text-generation collaborator prompted with a
    randomly chosen theme and is stripped of disallowed characters; the other attributes are
    procedural, with the resource loop stopping at the first true coin. */
module HybridAsteroidGenerator {
  import opened Wrappers
  import opened Seqs
  import opened Domain
  import opened Procedural

  /** The theme words one is drawn from. */
  const THEMES: seq<string> := [
    "ancient", "cybernetic", "gaseous", "crystalline", "volcanic",
    "frozen", "radioactive", "gazy", "rocky", "dusty", "dark",
    "shiny", "volatile", "cloudy", "botanic", "wild", "exotic"
  ]

  /** The collaborator answering the filled-in user prompt with free text, or failing
      (network, timeout; a reply without content fails too, since `replaceAll` on it throws). */
  type NameChat = string -> Result<string, Failure>

  /** The user prompt's text before and after the `{theme}` placeholder. */
  const PROMPT_HEAD: string := "Generate one creative asteroid name that sounds scientific, mystic and/or sci-fi and has a "
  const PROMPT_TAIL: string := " vibe."

  /** The user prompt with the theme filled in: the theme sits right after the fixed head and
      can be read back from the prompt. */
  function NamePrompt(theme: string): (prompt: string)
    ensures |prompt| == |PROMPT_HEAD| + |theme| + |PROMPT_TAIL|
    ensures prompt[..|PROMPT_HEAD|] == PROMPT_HEAD
    ensures prompt[|PROMPT_HEAD|..|PROMPT_HEAD| + |theme|] == theme
  {
    PROMPT_HEAD + theme + PROMPT_TAIL
  }

  /** Different themes give different prompts, so the collaborator can tell them apart. */
  lemma NamePromptInjective(t1: string, t2: string)
    requires t1 != t2
    ensures NamePrompt(t1) != NamePrompt(t2)
  {
  }

  /** The characters the pattern `[^a-zA-Z0-9\- ]` does not delete: only printable ASCII
      survives; the hyphen and the space are kept, while underscores, dots, exclamation marks,
      apostrophes and line breaks are deleted. */
  predicate IsNameChar(c: char): (kept: bool)
    ensures kept ==> ' ' <= c <= '~'
    ensures c == '-' || c == ' ' ==> kept
    ensures c == '_' || c == '.' || c == '!' || c == '\'' || c == '\n' ==> !kept
  {
    'a' <= c <= 'z' || 'A' <= c <= 'Z' || '0' <= c <= '9' || c == '-' || c == ' '
  }

  /** `replaceAll("[^a-zA-Z0-9\\- ]", "")`: only allowed characters remain; every allowed
      character of the reply is kept (SanitiseKeepsOrder and SanitiseCounts add: in order, as
      often as it occurs). */
  function SanitiseName(reply: string): (name: string)
    ensures forall i :: 0 <= i < |name| ==> IsNameChar(name[i])
    ensures |name| <= |reply|
    ensures forall i :: 0 <= i < |reply| && IsNameChar(reply[i]) ==> reply[i] in name
  {
    FilterKeepsMatches(reply, IsNameChar);
    Filter(reply, IsNameChar)
  }

  /** The kept characters stay in the order of the reply. */
  lemma SanitiseKeepsOrder(reply: string)
    ensures IsSubsequence(SanitiseName(reply), reply)
  {
    FilterIsSubsequence(reply, IsNameChar);
  }

  /** Every allowed character survives as often as it occurs in the reply; every other
      character is gone. */
  lemma SanitiseCounts(reply: string)
    ensures forall c :: multiset(SanitiseName(reply))[c] == if IsNameChar(c) then multiset(reply)[c] else 0
  {
    FilterCounts(reply, IsNameChar);
  }

  /** Sanitising a sanitised name changes nothing. */
  lemma SanitiseIdempotent(reply: string)
    ensures SanitiseName(SanitiseName(reply)) == SanitiseName(reply)
  {
    FilterIdempotent(reply, IsNameChar);
  }

  /** A reply made only of allowed characters is kept as it is. */
  lemma SanitiseKeepsCleanNames(reply: string)
    requires forall i :: 0 <= i < |reply| ==> IsNameChar(reply[i])
    ensures SanitiseName(reply) == reply
  {
    FilterAll(reply, IsNameChar);
  }

  /** No fallback name exists: a reply without allowed characters yields the empty name. */
  lemma SanitiseCanBeEmpty(reply: string)
    requires forall i :: 0 <= i < |reply| ==> !IsNameChar(reply[i])
    ensures SanitiseName(reply) == ""
  {
    FilterNone(reply, IsNameChar);
  }

  /** The design's example of a bad name is not rejected, only stripped. */
  lemma SanitiseExample()
    ensures SanitiseName("Ceres_99!") == "Ceres99"
  {
  }

  /** What `generate()` produces: the collaborator's failure, unchanged, or an asteroid whose
      name is the sanitised reply (nothing checks its length or token count and no fallback
      name is substituted), with the drawn risk and distance and the resource kinds before the
      first true coin. */
  function HybridGenerated(themeIndex: int, chat: NameChat, draws: AttributeDraws): (r: Result<Asteroid, Failure>)
    requires 0 <= themeIndex < |THEMES| && DrawsInRange(draws)
    ensures chat(NamePrompt(THEMES[themeIndex])).Failure? ==> r == Failure(chat(NamePrompt(THEMES[themeIndex])).error)
    ensures chat(NamePrompt(THEMES[themeIndex])).Success? ==>
              r.Success? && r.value.name == SanitiseName(chat(NamePrompt(THEMES[themeIndex])).value)
    ensures r.Success? ==> ProcedurallyBounded(r.value)
    ensures r.Success? ==> r.value.riskProfile == RISK_PROFILES[draws.riskIndex] && r.value.distanceInLightYears == draws.distance
    ensures r.Success? ==> forall k :: k in r.value.resources <==> Ordinal(k) < LeadingFalse(draws.coins)
  {
    match chat(NamePrompt(THEMES[themeIndex]))
    case Failure(e) => Failure(e)
    case Success(reply) =>
      BuiltIsBounded(SanitiseName(reply), draws, LeadingFalse(draws.coins));
      Success(Build(SanitiseName(reply), draws, PrefixResources(draws.coins, draws.amounts)))
  }

  /** `generate`: draws a theme, asks the collaborator once with it, sanitises the reply, draws
      the distance and the risk and runs the `break` loop; a failing collaborator call
      propagates. The outcome is exactly HybridGenerated's. */
  method Generate(themeIndex: int, chat: NameChat, draws: AttributeDraws) returns (r: Result<Asteroid, Failure>)
    requires 0 <= themeIndex < |THEMES| && DrawsInRange(draws)
    ensures r == HybridGenerated(themeIndex, chat, draws)
  {
    var randomTheme := THEMES[themeIndex];
    var reply := chat(NamePrompt(randomTheme));
    if reply.Failure? {
      return Failure(reply.error);
    }
    var asteroidName := SanitiseName(reply.value);
    var distance := draws.distance;
    var risk := RISK_PROFILES[draws.riskIndex];
    var resources := GeneratePrefixResources(draws.coins, draws.amounts);
    r := Success(Asteroid(None, asteroidName, risk, resources, distance));
  }
}
