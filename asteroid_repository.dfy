/** The in-memory asteroid store: an ordered list of asteroids and an id counter. Saving stamps
    the next id onto a copy of the asteroid and appends it; every query is an order-preserving
    scan of the list. */
module AsteroidRepository {
  import opened Wrappers
  import opened Seqs
  import opened Domain

  /** The id of a stored asteroid (stored asteroids always carry one). */
  function IdOf(a: Asteroid): int
  {
    if a.id.Some? then a.id.value else 0
  }

  /** Every element carries an id in 1..bound, and ids strictly increase along the list (so
      they are pairwise distinct). */
  ghost predicate IdsAscending(s: seq<Asteroid>, bound: int)
  {
    && (forall i :: 0 <= i < |s| ==> s[i].id.Some? && 1 <= IdOf(s[i]) <= bound)
    && (forall i, j :: 0 <= i < j < |s| ==> IdOf(s[i]) < IdOf(s[j]))
  }

  /** `Objects.equals(asteroid.id(), id)` as a stream predicate. */
  function HasId(id: int): Asteroid -> bool
  {
    (a: Asteroid) => a.id == Some(id)
  }

  /** `Objects.equals(asteroid.name(), name)` as a stream predicate. */
  function HasName(name: string): Asteroid -> bool
  {
    (a: Asteroid) => a.name == name
  }

  /** `asteroid.distanceInLightYears() <= maxDistance` as a stream predicate. */
  function WithinDistance(maxDistance: real): Asteroid -> bool
  {
    (a: Asteroid) => a.distanceInLightYears <= maxDistance
  }

  /** `asteroid.resources().containsKey(resource)` as a stream predicate. */
  function Contains(resource: ResourceType): Asteroid -> bool
  {
    (a: Asteroid) => resource in a.resources
  }

  /** The four bootstrap asteroids, in insertion order. */
  const SEED_ASTEROIDS: seq<Asteroid> := [
    Asteroid(Some(1), "Ceres-Alpha", SAFE, map[IRON := 500, GOLD := 10], 2.5),
    Asteroid(Some(2), "X-99-Eris", CAUTION, map[KRYPTONITE := 5, PLATINUM := 5], 15.1),
    Asteroid(Some(3), "Alpha-Lumina-V2", VOLATILE, map[IRON := 500, PLATINUM := 1, GOLD := 2], 5.7),
    Asteroid(Some(4), "Aris-Centurion", LETHAL, map[KRYPTONITE := 1500], 25.3)
  ]

  /** Appending an asteroid stamped with the next counter value keeps the id invariant, and
      that asteroid is then the one found under its id. */
  lemma {:induction false} AppendNextId(s: seq<Asteroid>, counter: int, a: Asteroid)
    requires IdsAscending(s, counter)
    requires counter >= 0
    ensures IdsAscending(s + [a.WithId(counter + 1)], counter + 1)
    ensures FindFirst(s + [a.WithId(counter + 1)], HasId(counter + 1)) == Some(a.WithId(counter + 1))
  {
    var t := s + [a.WithId(counter + 1)];
    assert forall i :: 0 <= i < |s| ==> t[i] == s[i];
    assert forall i :: 0 <= i < |s| ==> !HasId(counter + 1)(s[i]);
    FindFirstAfterMisses(s, a.WithId(counter + 1), HasId(counter + 1));
  }

  class InMemoryAsteroidRepository {
    var asteroids: seq<Asteroid>
    var idSequence: int

    /** The store's invariant: the counter has handed out every stored id, in order. */
    ghost predicate Valid()
      reads this
    {
      idSequence >= 0 && IdsAscending(asteroids, idSequence)
    }

    /** The bootstrap: four asteroids with ids 1 to 4, and the counter at the list's size. */
    constructor ()
      ensures Valid()
      ensures asteroids == SEED_ASTEROIDS
      ensures |asteroids| == 4 && idSequence == 4
      ensures forall i :: 0 <= i < 4 ==> asteroids[i].id == Some(i + 1)
    {
      asteroids, idSequence := [], 0;
      new;
      asteroids := asteroids + [SEED_ASTEROIDS[0]];
      asteroids := asteroids + [SEED_ASTEROIDS[1]];
      asteroids := asteroids + [SEED_ASTEROIDS[2]];
      asteroids := asteroids + [SEED_ASTEROIDS[3]];
      idSequence := |asteroids|;
    }

    /** `findAll`: the stored list at the time of the call (the source returns a live read-only
        view of it; this model returns the value). */
    function FindAll(): (all: seq<Asteroid>)
      reads this
      ensures |all| == |asteroids| && forall i :: 0 <= i < |all| ==> all[i] == asteroids[i]
    {
      asteroids
    }

    /** `findById`: the first stored asteroid with that id, or None when there is none. */
    function FindById(id: int): (r: Option<Asteroid>)
      reads this
      ensures r.None? <==> forall i :: 0 <= i < |asteroids| ==> asteroids[i].id != Some(id)
      ensures r.Some? ==> r.value.id == Some(id)
      ensures r.Some? ==> exists i :: 0 <= i < |asteroids| && asteroids[i] == r.value &&
                            forall j :: 0 <= j < i ==> asteroids[j].id != Some(id)
    {
      FindFirst(asteroids, HasId(id))
    }

    /** `findByName`: the first stored asteroid with that name, or None when there is none. */
    function FindByName(name: string): (r: Option<Asteroid>)
      reads this
      ensures r.None? <==> forall i :: 0 <= i < |asteroids| ==> asteroids[i].name != name
      ensures r.Some? ==> r.value.name == name
      ensures r.Some? ==> exists i :: 0 <= i < |asteroids| && asteroids[i] == r.value &&
                            forall j :: 0 <= j < i ==> asteroids[j].name != name
    {
      FindFirst(asteroids, HasName(name))
    }

    /** `findInRange`: exactly the stored asteroids at most `maxDistance` away, in stored order. */
    function FindInRange(maxDistance: real): (r: seq<Asteroid>)
      reads this
      ensures IsSubsequence(r, asteroids)
      ensures forall a :: a in r <==> a in asteroids && a.distanceInLightYears <= maxDistance
      ensures forall a :: multiset(r)[a] == if a.distanceInLightYears <= maxDistance then multiset(asteroids)[a] else 0
    {
      FilterMembers(asteroids, WithinDistance(maxDistance));
      FilterIsSubsequence(asteroids, WithinDistance(maxDistance));
      FilterCounts(asteroids, WithinDistance(maxDistance));
      Filter(asteroids, WithinDistance(maxDistance))
    }

    /** `findWithResource`: exactly the stored asteroids listing `resource`, in stored order. */
    function FindWithResource(resource: ResourceType): (r: seq<Asteroid>)
      reads this
      ensures IsSubsequence(r, asteroids)
      ensures forall a :: a in r <==> a in asteroids && resource in a.resources
      ensures forall a :: multiset(r)[a] == if resource in a.resources then multiset(asteroids)[a] else 0
    {
      FilterMembers(asteroids, Contains(resource));
      FilterIsSubsequence(asteroids, Contains(resource));
      FilterCounts(asteroids, Contains(resource));
      Filter(asteroids, Contains(resource))
    }

    /** `save`: the counter is incremented, a copy of `asteroid` carrying the new counter value
        as its id is appended, and that copy is returned. Earlier entries are untouched, and
        the saved asteroid is what `findById` now finds under its id. */
    method Save(asteroid: Asteroid) returns (saved: Asteroid)
      requires Valid()
      modifies this
      ensures Valid()
      ensures idSequence == old(idSequence) + 1
      ensures saved == asteroid.WithId(idSequence)
      ensures asteroids == old(asteroids) + [saved]
      ensures FindById(idSequence) == Some(saved)
    {
      AppendNextId(asteroids, idSequence, asteroid);
      idSequence := idSequence + 1;
      saved := asteroid.WithId(idSequence);
      asteroids := asteroids + [saved];
    }
  }
}
