/**
 The part of the entity world that the leap ability reads and writes: which
 entities have a physics body, the named fixtures of each entity's fixtures
 component, which entities carry a climbable component, and (as ghost state)
 which bodies are in the air. The physics engine itself is not modelled; its
 fixture operations are abstract effects on the fixture map.
 */
module Physics {

  /** An entity identifier (the engine's `EntityUid`, a wrapped integer). */
  datatype Uid = Uid(id: int)

  /** A collision layer or mask, the engine's 32-bit `int`, as the set of
      positions of its one bits. The leap ability combines masks only with
      `&`, `|` and `& ~`, which are intersection (`*`), union (`+`) and
      difference (`-`) of these sets; zero is the empty set. */
  type Mask = set<nat>

  /** A collision fixture: whether it takes part in solid collision, the
      collision layer it presents and the collision mask it reacts to. */
  datatype Fixture = Fixture(hard: bool, layer: Mask, mask: Mask)

  /** Identity of a fixture in an event: the owning entity and the fixture ID. */
  datatype FixtureRef = FixtureRef(owner: Uid, id: string)

  /** The end of a contact between one of our fixtures and another. */
  datatype EndCollideEvent = EndCollideEvent(
    ourFixture: FixtureRef,
    ourContacts: seq<FixtureRef>,  // the keys of our fixture's contact table
    otherFixture: FixtureRef,
    otherEntity: Uid)

  class World {
    /** Entities that have a physics component. */
    var bodies: set<Uid>
    /** Entities that have a fixtures component, with their fixtures by ID. */
    var fixtures: map<Uid, map<string, Fixture>>
    /** Entities that have a climbable component. */
    var climbable: set<Uid>
    /** Bodies whose status is "in air" rather than "on ground". */
    ghost var inAir: set<Uid>

    /** Overwrites the collision mask of one fixture; nothing else changes. */
    method SetCollisionMask(uid: Uid, id: string, mask: Mask)
      requires uid in fixtures && id in fixtures[uid]
      modifies this`fixtures
      ensures fixtures == old(fixtures)[uid := old(fixtures)[uid][id := old(fixtures)[uid][id].(mask := mask)]]
    {
      var fx := fixtures[uid];
      fixtures := fixtures[uid := fx[id := fx[id].(mask := mask)]];
    }

    /** Adds a fixture under a fresh ID. `accepted` is the engine's answer for
        everything this model does not see; an ID already in use is refused. */
    method TryCreateFixture(uid: Uid, id: string, fixture: Fixture, accepted: bool) returns (ok: bool)
      requires uid in fixtures
      modifies this`fixtures
      ensures ok <==> accepted && id !in old(fixtures)[uid]
      ensures fixtures == if ok then old(fixtures)[uid := old(fixtures)[uid][id := fixture]] else old(fixtures)
    {
      ok := accepted && id !in fixtures[uid];
      if ok {
        fixtures := fixtures[uid := fixtures[uid][id := fixture]];
      }
    }

    /** Removes a fixture by ID; an ID that is no longer there is ignored. */
    method DestroyFixture(uid: Uid, id: string)
      requires uid in fixtures
      modifies this`fixtures
      ensures fixtures == old(fixtures)[uid := old(fixtures)[uid] - {id}]
    {
      fixtures := fixtures[uid := fixtures[uid] - {id}];
    }
  }
}
