# Leap ability: collision state machine

A Dafny model of the leap ability of a Space Station 14 style game: `LeapSystem` with its per-entity `LeapComponent`.

## How a leap works

1. **Leap start.** A creature's leap action starts a leap. It is refused when:
   - the entity lacks a physics or fixtures component;
   - a leap is already in flight;
   - the stamina system refuses the cost.

   Otherwise every hard fixture that has no saved entry yet and whose collision mask meets the leaping collision group (TableLayer | LowImpassable) loses those bits. The lost bits are saved in the component under the fixture's ID.
2. **Probe.** A non-hard "Leaping" probe fixture is created if absent. It presents no layer and detects exactly the leaping group. The body goes into the air, and `Jumping` is set.
3. **Landing.** When the leap's duration elapses, the body is back on the ground, `Jumping` is cleared and `CheckColliding` is set. If no entity intersecting the body is climbable, the suppressed collisions are returned at once.
4. **Collision end.** Otherwise a later end-of-contact event on the probe returns them. It is refused while the entity across the ending contact is climbable and the probe still has another contact.
5. **Returning collisions.** Every saved entry is OR-ed back into its fixture (a fixture that has disappeared is skipped), and the saved entries are cleared. The probe is put on a per-entity removal queue and is not destroyed on the spot.
6. **Queue flush.** Once per tick the queue is drained for entities that still have a physics and a fixtures component, and then emptied. A round restart also empties it.

## Modules

- `physics.dfy` (`Physics`): the part of the entity world the ability reads and writes, as a `World` class:
  - the entities with a physics body;
  - each entity's fixtures by ID (hard flag, layer, mask);
  - the climbable entities;
  - as ghost state, the bodies in the air.

  Fixture mask writes, probe creation and fixture destruction are methods whose contracts state their effect on the fixture map.
- `leap_component.dfy` (`Leap`): `LeapComponent`, with the fields the system updates in place.
- `leap_spec.dfy` (`LeapSpec`):
  - the constants;
  - value-level functions stating what leap start, collision return, enqueueing and the flush do to the fixture maps and the queue;
  - the lemmas relating them (round trip, idempotence, what the queue may hold, a whole leap cycle).
- `leap_system.dfy` (`LeapSystems`): `LeapSystem`. It holds the removal queue as a field, and its event handlers are methods. Each loop of the source is a loop here, proved against the functions of `LeapSpec`.

## How the model is stated

- **Collision masks.** A collision layer or mask (a 32-bit `int` in the source) is modelled as the set of positions of its one bits. The ability only uses `&`, `|` and `& ~` on masks, and these become `*`, `+` and `-` on sets.
  - The leaping group is `{2, 4}`: TableLayer is MidImpassable, bit 2, and LowImpassable is bit 4.
  - The engine's collision-group enumeration is not part of this model. The lemmas about masks hold for any group `g`.
- **Entities.** An entity is `Uid(id: int)`.
- **Collaborators as inputs.** Collaborators the model cannot see are inputs:
  - `staminaTaken`: the stamina system's answer;
  - `probeCreated`: whether the engine accepts the new fixture;
  - `intersecting`: the entities the engine reports as intersecting the body;
  - the event's contact list.

  Whether an entity is climbable is the `World.climbable` set.
- **Fixture IDs.** A fixture's dictionary key is taken to be its ID. The source saves the lost bits under `fixture.ID` while testing the key.
- **The queue.** Queue entries are lists of fixture IDs rather than fixture objects. Destroying a queued fixture removes that ID from the entity's fixtures, and an ID already gone is ignored.

## Model

| member | source | states |
|---|---|---|
| Physics.World.SetCollisionMask | Content.Shared/Leap/LeapSystem.cs:112 | Only the mask of the one named fixture changes; every other fixture and entity is as before. |
| Physics.World.TryCreateFixture | Content.Shared/Leap/LeapSystem.cs:116-123 | Creation succeeds exactly when the engine accepts and the ID is unused. On success the fixture is added under that ID; on failure nothing changes. |
| Physics.World.DestroyFixture | Content.Shared/Leap/LeapSystem.cs:256 | Removes the fixture with that ID from the entity; an ID already gone leaves the entity as it is. |
| Leap.LeapComponent.constructor | Content.Shared/Leap/LeapComponent.cs:15-38 | A fresh component: action "LeapForward", stamina cost 20, no saved masks, neither jumping nor checking collisions; its saved-mask invariant holds. |
| LeapSystems.LeapSystem.constructor | Content.Shared/Leap/LeapSystem.cs:38 | The removal queue starts empty. |
| LeapSystems.LeapSystem.HandleLeap | Content.Shared/Leap/LeapSystem.cs:66-76 | An already handled event changes nothing and stays handled. Otherwise the event is handled exactly when the attempt succeeds, with the attempt's full effect. |
| LeapSystems.LeapSystem.AttemptLeap | Content.Shared/Leap/LeapSystem.cs:78-151 | Missing components, a leap in flight or a stamina refusal: false, with no mask, saved entry, flag or body status changed. Past stamina: masks suppressed and lost bits saved. Success iff the probe existed or was created; then a probe is present (created with layer None, mask = group, not hard if it was absent; an existing one is kept as it is), the body is in the air, Jumping is set and CheckColliding cleared. A failed creation leaves masks suppressed and flags as they were. Saved entries stay non-empty parts of the group. |
| LeapSystems.LeapSystem.SuppressLeapCollisions | Content.Shared/Leap/LeapSystem.cs:104-113 | The mask loop turns the entity's fixtures into `SuppressedFixtures` and the saved masks into `SavedAfterSuppress` of the originals. No other entity changes. Saved entries stay within the group. |
| LeapSystems.LeapSystem.SuppressFixture | Content.Shared/Leap/LeapSystem.cs:106-112 | One iteration. A fixture with no saved entry, hard and meeting the group, has the group's bits saved and cleared from its mask. Any other fixture leaves masks and saved entries untouched. |
| LeapSystems.LeapSystem.FinishLeap | Content.Shared/Leap/LeapSystem.cs:153-164 | No physics body: nothing changes. Otherwise Jumping is false, CheckColliding true and the body on the ground. Collisions are returned iff the entity has fixtures and no intersecting entity is climbable; otherwise masks, saved entries and queue are kept. |
| LeapSystems.LeapSystem.FinishCheck | Content.Shared/Leap/LeapSystem.cs:166-183 | Collisions are returned iff the entity has fixtures and a body and no intersecting entity is climbable; otherwise masks, saved entries and queue are kept. The flags are not touched. |
| LeapSystems.LeapSystem.LandingBlocked | Content.Shared/Leap/LeapSystem.cs:172-180 | Reports true iff some intersecting entity is climbable. |
| LeapSystems.LeapSystem.OnLeapCollisionEnd | Content.Shared/Leap/LeapSystem.cs:185-213 | Nothing changes unless our fixture is the probe, not jumping and checking collisions, and the contact test does not refuse. In that case both flags are cleared and collisions returned. |
| LeapSystems.LeapSystem.ContactBlocksClearance | Content.Shared/Leap/LeapSystem.cs:194-200 | Reports true iff the other entity of the ending contact is climbable and the probe has some contact other than the ending one. |
| LeapSystems.LeapSystem.ReturnLeapCollisions | Content.Shared/Leap/LeapSystem.cs:215-242 | No fixtures: nothing changes. Otherwise the entity's fixtures become `Restored` of the old ones with the saved masks, the saved masks are empty, and the queue becomes `Enqueued`. The queue keeps holding only probe IDs, and saved-mask validity is kept. |
| LeapSystems.LeapSystem.Update | Content.Shared/Leap/LeapSystem.cs:244-261 | The world's fixtures become `Flushed` of the old fixtures, bodies and queue, and the queue is empty afterwards. |
| LeapSystems.LeapSystem.DestroyQueued | Content.Shared/Leap/LeapSystem.cs:254-257 | Destroying a list of IDs one at a time removes exactly the IDs the list names from that entity and touches no other entity. |
| LeapSystems.LeapSystem.Reset | Content.Shared/Leap/LeapSystem.cs:263-266 | The queue is empty afterwards and the queue invariant holds. |
| LeapSpec.SuppressedFixtures | Content.Shared/Leap/LeapSystem.cs:104-113 | Same fixture IDs. A suppressible fixture (no saved entry, hard, mask meets the group) keeps hard flag and layer and changes only its mask; every other fixture is unchanged. |
| LeapSpec.SavedAfterSuppress | Content.Shared/Leap/LeapSystem.cs:106-111 | An ID is saved afterwards iff it was saved before or its fixture is suppressible. Entries saved before are kept as they were. |
| LeapSpec.SuppressedMask | Content.Shared/Leap/LeapSystem.cs:112 | A suppressed fixture has no bit of the group left, and every fixture keeps every bit outside the group. |
| LeapSpec.SavedMask | Content.Shared/Leap/LeapSystem.cs:111 | A suppressible fixture's new saved entry is exactly the group bits of its mask. |
| LeapSpec.Restored | Content.Shared/Leap/LeapSystem.cs:220-228 | Same fixture IDs. A fixture with a saved entry changes only its mask; a fixture without one is unchanged; saved entries of missing fixtures are skipped. |
| LeapSpec.RestoredMask | Content.Shared/Leap/LeapSystem.cs:227 | Returning collisions never clears a bit, and every saved bit ends up in its fixture's mask. |
| LeapSpec.RestoreAddsOnlyGroupBits | Content.Shared/Leap/LeapSystem.cs:220-228 | With saved entries inside the group, returning collisions changes no bit outside the group. |
| LeapSpec.SavedAfterSuppressWithinGroup | Content.Shared/Leap/LeapSystem.cs:106-111 | Leap start keeps every saved entry a non-empty part of the group. |
| LeapSpec.SuppressedFixtureRestored | Content.Shared/Leap/LeapSystem.cs:111-112 | A fixture suppressed at leap start gets back exactly its original fixture when collisions are returned: the bits cleared from a mask and the bits saved from it make up the whole mask again. |
| LeapSpec.SuppressRestoreRoundTrip | Content.Shared/Leap/LeapSystem.cs:220-228 | From no saved masks, suppressing then returning collisions gives back every fixture unchanged. |
| LeapSpec.SuppressIdempotent | Content.Shared/Leap/LeapSystem.cs:106 | A second suppression on the state the first left changes neither the fixtures nor the saved masks, because of the saved-entry guard. |
| LeapSpec.RestoreIdempotent | Content.Shared/Leap/LeapSystem.cs:227 | Returning collisions twice with the same saved masks equals returning them once. |
| LeapSpec.WithProbe | Content.Shared/Leap/LeapSystem.cs:115-127 | The probe's ID is present afterwards and every existing fixture, including an existing probe, is left as it was. |
| LeapSpec.Enqueued | Content.Shared/Leap/LeapSystem.cs:231-238 | The entity gets a queue entry that extends its old one by the probe's ID exactly when the fixtures hold a probe. Other entities' entries are unchanged. |
| LeapSpec.EnqueuedHoldsProbes | Content.Shared/Leap/LeapSystem.cs:237-238 | If the queue holds only probe IDs, it still does after enqueueing. |
| LeapSpec.Flushed | Content.Shared/Leap/LeapSystem.cs:246-260 | Every entity keeps a subset of its fixtures, unchanged. Every ID queued for an entity with a body is gone. An entity without a body or queue entry is untouched. |
| LeapSpec.DuplicateQueueEntryHarmless | Content.Shared/Leap/LeapSystem.cs:238 | Queueing an ID that is already queued does not change what the flush does. |
| LeapSpec.FlushRemovesOnlyProbes | Content.Shared/Leap/LeapSystem.cs:254-257 | A flush of a queue holding only probe IDs removes nothing but the probe. |
| LeapSpec.RestoredWithProbe | Content.Shared/Leap/LeapSystem.cs:220-228 | Returning collisions does not touch a probe that has no saved entry: adding the probe and restoring commute. |
| LeapSpec.FlushSingleProbe | Content.Shared/Leap/LeapSystem.cs:246-260 | Flushing a queue holding just one entity's probe removes that probe and nothing else. |
| LeapSpec.ReturnedProbeIsFlushed | Content.Shared/Leap/LeapSystem.cs:237-258 | A probe queued when collisions are returned is gone after the next flush, whatever happened to the body in between, including a new leap that reused that probe and is still in flight. |
| LeapSpec.LeapCycleDropsProbe | Content.Shared/Leap/LeapSystem.cs:104-260 | A whole leap on any body (suppression, probe reuse or creation, collision return, the next flush) leaves exactly the starting fixtures less any fixture with the probe's ID. |
| LeapSpec.LeapCycleRestoresFixtures | Content.Shared/Leap/LeapSystem.cs:104-260 | A whole leap on a body without a probe restores exactly the fixtures the body started with: suppression, probe creation, collision return and the next flush. |

## Left out

- Velocity, world rotation, the float `Duration` and `Speed` fields and the probe's circle radius: floating-point motion with no bearing on the collision state.
- Body status is ghost state (`World.inAir`). No other physics is modelled.
- Popups, localization and debug logging: user-facing output only.
- Creating and removing the bound action on component init and shutdown: foreign calls into the action and prototype systems.
- Scheduling the delayed finish event: `FinishLeap` is a method the host calls when the delay elapses.
- Stamina accounting is not modelled. The stamina system's answer is the `staminaTaken` input, so the model cannot state that stamina is spent exactly once.
- Climbing code that is commented out in the source, the unused `CompleteTime` field, and networking and serialization attributes.
- Component lookups and removals other than the physics and fixtures components, and entity deletion.
- Update's `frameTime` argument is unused by the source and is not a parameter.
- The invariant that saved masks are non-empty only while `Jumping` or `CheckColliding` holds is not stated. The code breaks it: a failed probe creation returns with masks suppressed, `Jumping` false and `CheckColliding` as it was. `AttemptLeap` models that path as written.
- The invariant that a probe exists exactly while `Jumping` or `CheckColliding` holds, or while it awaits destruction, is not stated. The code breaks it in two ways, and the model shows both rather than promising the invariant:
  - (a) Re-leap before the flush. A leap started after collisions were returned but before the next update reuses the queued probe. The flush then destroys it while `Jumping` holds (`ReturnedProbeIsFlushed`, `LeapCycleDropsProbe`). If that leap lands against a climbable entity, the masks stay suppressed and no probe remains to raise the collision-end event that would return them.
  - (b) Stale flag. The landing clearance path returns collisions but leaves `CheckColliding` true (`FinishLeap`, `FinishCheck`). The next flush then removes the probe while the flag stays set (`ReturnedProbeIsFlushed`).
  - Engine events raised while a fixture is destroyed are outside the model.
- Fixture identity: a queued probe that is destroyed and re-created under the same ID before the flush would be removed by the flush here. In the source the queue holds the old fixture object.
- Collision masks are 32-bit integers in the source and sets of bit positions here. The operations used never add a bit the operands lacked, so no width restriction is needed.
