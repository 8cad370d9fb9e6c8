/** A loaded level as the engine keeps it: its actor array, and how actors leave and enter it. */
module Levels {
  import opened Engine
  import opened Actors

  function NamesOf(actors: ActorArray): (names: set<Name>)
    ensures forall n :: n in names <==> exists i :: 0 <= i < |actors| && actors[i].Some? && actors[i].value.name == n
  {
    set i | 0 <= i < |actors| && actors[i].Some? :: actors[i].value.name
  }

  /** Live actors have names of their own. */
  ghost predicate DistinctActors(actors: ActorArray) {
    && (forall i, j :: 0 <= i < j < |actors| && actors[i].Some? && actors[j].Some?
                       ==> actors[i].value.name != actors[j].value.name)
    && (forall i :: 0 <= i < |actors| && actors[i].Some? ==> actors[i].value.name != NAME_NONE)
  }

  /** The engine can always make up a name that is not taken. */
  lemma FreshNameExists(taken: set<Name>)
    ensures exists n: Name :: n !in taken && n != NAME_NONE
  {
    var bound := LongestName(taken);
    var n: Name := seq(bound + 5, _ => 'x');
    assert |n| > |NAME_NONE|;
  }

  lemma {:induction false} LongestName(taken: set<Name>) returns (bound: nat)
    ensures forall n :: n in taken ==> |n| <= bound
  {
    if taken == {} {
      bound := 0;
    } else {
      var n :| n in taken;
      var rest := LongestName(taken - {n});
      bound := if |n| > rest then |n| else rest;
    }
  }

  /** How a world makes actors: what a class constructs under a name. */
  datatype Spawning = Spawning(construct: (Class, Name) -> Actor)
  {
    /** A new actor is as its class constructs it, but for what spawning settles. */
    function Spawned(cls: Class, name: Name, transform: Transform): Actor {
      construct(cls, name).(name := name, cls := cls, transform := transform)
    }
  }

  class Level {
    const spawning: Spawning
    var actors: ActorArray
    /** Names of destroyed actors the engine has not collected yet. */
    var garbage: set<Name>

    ghost predicate Valid()
      reads this
    {
      DistinctActors(actors)
    }

    constructor (actors: ActorArray, garbage: set<Name>, spawning: Spawning)
      ensures this.actors == actors && this.garbage == garbage && this.spawning == spawning
    {
      this.spawning, this.actors, this.garbage := spawning, actors, garbage;
    }

    /** Destroying an actor empties its entry; its name may stay taken for a while. */
    method Destroy(i: nat)
      requires Valid() && i < |actors| && actors[i].Some?
      modifies this
      ensures Valid() && actors == old(actors)[i := None]
      ensures old(garbage) <= garbage <= old(garbage) + {old(actors)[i].value.name}
    {
      if * {
        garbage := garbage + {actors[i].value.name};
      }
      actors := actors[i := None];
    }

    /** Spawns an actor under the requested name if it is free, and else under some fresh name. */
    method SpawnActor(cls: Class, transform: Transform, requested: Name) returns (actual: Name)
      requires Valid()
      modifies this`actors
      ensures Valid() && actors == old(actors) + [Some(spawning.Spawned(cls, actual, transform))]
      ensures actors[|old(actors)|].value.name == actual && actors[|old(actors)|].value.cls == cls
              && actors[|old(actors)|].value.transform == transform
      ensures actual !in NamesOf(old(actors)) && actual != NAME_NONE
      ensures requested !in NamesOf(old(actors)) + garbage && requested != NAME_NONE ==> actual == requested
    {
      actual := requested;
      if requested in NamesOf(actors) + garbage || requested == NAME_NONE {
        FreshNameExists(NamesOf(actors) + garbage);
        actual :| actual !in NamesOf(actors) + garbage && actual != NAME_NONE;
      }
      actors := actors + [Some(spawning.Spawned(cls, actual, transform))];
    }
  }
}
