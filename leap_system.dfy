/**
 The leap system: starts a leap (suppressing the leaping collision group on
 the body's hard fixtures and adding a probe fixture), finishes it when its
 duration has elapsed, returns the suppressed collisions once no climbable
 obstacle is in the way, and defers the probe's destruction to a per-tick
 queue that is drained outside collision handling.

 Collaborators the model does not see are inputs: the stamina system's answer
 (`staminaTaken`), the physics engine's answer to creating the probe
 (`probeCreated`) and its list of entities intersecting the body
 (`intersecting`).
 */
module LeapSystems {
  import opened Physics
  import opened LeapSpec
  import opened Leap

  /** What a leap attempt does. It fails with no effect when the entity lacks
      a fixtures or physics component, is already jumping, or the stamina
      system refuses. Past the stamina gate it suppresses masks and saves the
      lost bits; it then succeeds iff the probe already exists or is created.
      Success adds the probe if absent, puts the body in the air, and sets
      `jumping` and clears `checkColliding`. Failure to create the probe
      leaves the masks suppressed and the flags as they were. */
  twostate predicate LeapAttempted(uid: Uid, comp: LeapComponent, world: World,
                                   staminaTaken: bool, probeCreated: bool, success: bool)
    reads comp, world
  {
    && world.bodies == old(world.bodies)
    && world.climbable == old(world.climbable)
    && comp.leapForwardAction == old(comp.leapForwardAction)
    && comp.staminaCost == old(comp.staminaCost)
    && if !(uid in old(world.fixtures) && uid in old(world.bodies)) || old(comp.jumping) || !staminaTaken then
         && !success
         && world.fixtures == old(world.fixtures)
         && world.inAir == old(world.inAir)
         && comp.disabledFixtureMasks == old(comp.disabledFixtureMasks)
         && comp.jumping == old(comp.jumping)
         && comp.checkColliding == old(comp.checkColliding)
       else
         var fx := old(world.fixtures)[uid];
         var suppressed := SuppressedFixtures(fx, old(comp.disabledFixtureMasks), LeapingCollisionGroup);
         && comp.disabledFixtureMasks == SavedAfterSuppress(fx, old(comp.disabledFixtureMasks), LeapingCollisionGroup)
         && success == (LeapingFixtureName in fx || probeCreated)
         && if success then
              && world.fixtures == old(world.fixtures)[uid := WithProbe(suppressed, LeapingCollisionGroup)]
              && world.inAir == old(world.inAir) + {uid}
              && comp.jumping
              && !comp.checkColliding
            else
              && world.fixtures == old(world.fixtures)[uid := suppressed]
              && world.inAir == old(world.inAir)
              && comp.jumping == old(comp.jumping)
              && comp.checkColliding == old(comp.checkColliding)
  }

  class LeapSystem {
    /** Fixtures to destroy at the next update: per entity, a list of
        fixture IDs (a list, so the same ID may be queued twice). */
    var fixtureRemoveQueue: map<Uid, seq<string>>

    /** Only probe fixtures are ever queued. */
    ghost predicate Valid()
      reads this
    {
      QueueHoldsProbes(fixtureRemoveQueue)
    }

    /** Collisions of `uid` were returned: every saved mask whose fixture still
        exists is OR-ed back in, the saved masks are cleared, and the entity's
        queue entry exists and has the probe appended if the body has one. */
    twostate predicate CollisionsReturned(uid: Uid, comp: LeapComponent, world: World)
      reads this, comp, world
    {
      && uid in old(world.fixtures)
      && var restored := Restored(old(world.fixtures)[uid], old(comp.disabledFixtureMasks));
         && world.fixtures == old(world.fixtures)[uid := restored]
         && comp.disabledFixtureMasks == map[]
         && fixtureRemoveQueue == Enqueued(old(fixtureRemoveQueue), uid, restored)
    }

    /** Masks, saved masks and the removal queue are as they were. */
    twostate predicate CollisionsKept(comp: LeapComponent, world: World)
      reads this, comp, world
    {
      && world.fixtures == old(world.fixtures)
      && comp.disabledFixtureMasks == old(comp.disabledFixtureMasks)
      && fixtureRemoveQueue == old(fixtureRemoveQueue)
    }

    constructor ()
      ensures Valid() && fixtureRemoveQueue == map[]
    {
      fixtureRemoveQueue := map[];
    }

    /** The leap action: an event already handled is left alone; otherwise
        the event is handled exactly when the attempt succeeds. */
    method HandleLeap(uid: Uid, comp: LeapComponent, world: World, handled: bool,
                      staminaTaken: bool, probeCreated: bool) returns (handledAfter: bool)
      requires comp.Valid()
      modifies comp, world
      ensures comp.Valid()
      ensures handled ==> handledAfter && unchanged(comp) && unchanged(world)
      ensures !handled ==> LeapAttempted(uid, comp, world, staminaTaken, probeCreated, handledAfter)
    {
      if handled {
        return handled;
      }
      var success := AttemptLeap(uid, comp, world, staminaTaken, probeCreated);
      handledAfter := success;
    }

    method AttemptLeap(uid: Uid, comp: LeapComponent, world: World,
                       staminaTaken: bool, probeCreated: bool) returns (success: bool)
      requires comp.Valid()
      modifies comp, world
      ensures comp.Valid()
      ensures LeapAttempted(uid, comp, world, staminaTaken, probeCreated, success)
    {
      if !(uid in world.fixtures && uid in world.bodies) {
        return false;
      }
      if comp.jumping {
        return false;
      }
      if !staminaTaken {
        return false;
      }

      ghost var fx := world.fixtures[uid];
      SuppressLeapCollisions(uid, comp, world);
      ghost var suppressed := world.fixtures[uid];
      assert suppressed.Keys == fx.Keys;

      if LeapingFixtureName !in world.fixtures[uid] {
        var created := world.TryCreateFixture(uid, LeapingFixtureName,
                                              Fixture(false, CollisionGroupNone, LeapingCollisionGroup), probeCreated);
        if !created {
          return false;
        }
      }

      world.inAir := world.inAir + {uid};
      comp.jumping := true;
      comp.checkColliding := false;
      return true;
    }

    /** The mask loop of a leap start: every fixture of `uid` that is hard,
        meets the leaping group and has no saved entry yet loses the group's
        bits, which are saved under its ID. */
    static method SuppressLeapCollisions(uid: Uid, comp: LeapComponent, world: World)
      requires uid in world.fixtures
      requires comp.Valid()
      modifies comp`disabledFixtureMasks, world`fixtures
      ensures comp.Valid()
      ensures world.fixtures == old(world.fixtures)[uid := SuppressedFixtures(old(world.fixtures)[uid], old(comp.disabledFixtureMasks), LeapingCollisionGroup)]
      ensures comp.disabledFixtureMasks == SavedAfterSuppress(old(world.fixtures)[uid], old(comp.disabledFixtureMasks), LeapingCollisionGroup)
    {
      ghost var fixtures0 := world.fixtures;
      ghost var fx0 := world.fixtures[uid];
      ghost var saved0 := comp.disabledFixtureMasks;
      ghost var target := SuppressedFixtures(fx0, saved0, LeapingCollisionGroup);
      ghost var targetSaved := SavedAfterSuppress(fx0, saved0, LeapingCollisionGroup);
      SuppressStart(fx0, saved0, LeapingCollisionGroup);
      var todo := world.fixtures[uid].Keys;
      while todo != {}
        invariant todo <= fx0.Keys
        invariant uid in world.fixtures && world.fixtures == fixtures0[uid := world.fixtures[uid]]
        invariant UpdatedSoFar(fx0, target, todo, world.fixtures[uid])
        invariant UpdatedSoFar(saved0, targetSaved, todo, comp.disabledFixtureMasks)
        decreases todo
      {
        var id :| id in todo;
        ghost var cur := world.fixtures[uid];
        ghost var curSaved := comp.disabledFixtureMasks;
        assert cur[id] == fx0[id] && (id in curSaved <==> id in saved0);
        if Suppressible(id, fx0[id], saved0, LeapingCollisionGroup) {
          SuppressedAt(fx0, saved0, LeapingCollisionGroup, id);
          UpdatedSoFarSet(fx0, target, todo, cur, id);
          UpdatedSoFarSet(saved0, targetSaved, todo, curSaved, id);
        } else {
          NotSuppressedAt(fx0, saved0, LeapingCollisionGroup, id);
          UpdatedSoFarSkip(fx0, target, todo, cur, id);
          UpdatedSoFarSkip(saved0, targetSaved, todo, curSaved, id);
        }
        SuppressFixture(uid, id, comp, world);
        UpdateTwice(fixtures0, uid, cur, world.fixtures[uid]);
        todo := todo - {id};
      }
      UpdatedSoFarDone(fx0, target, world.fixtures[uid]);
      UpdatedSoFarDone(saved0, targetSaved, comp.disabledFixtureMasks);
      SavedAfterSuppressWithinGroup(fx0, saved0, LeapingCollisionGroup);
    }

    /** One pass of the mask loop: a fixture that is hard, meets the
        leaping group and has no saved entry yet loses the group's bits,
        which are saved under its ID; any other fixture is skipped. */
    static method SuppressFixture(uid: Uid, id: string, comp: LeapComponent, world: World)
      requires uid in world.fixtures && id in world.fixtures[uid]
      modifies comp`disabledFixtureMasks, world`fixtures
      ensures var f := old(world.fixtures)[uid][id];
              if Suppressible(id, f, old(comp.disabledFixtureMasks), LeapingCollisionGroup) then
                && comp.disabledFixtureMasks == old(comp.disabledFixtureMasks)[id := f.mask * LeapingCollisionGroup]
                && world.fixtures == old(world.fixtures)[uid := old(world.fixtures)[uid][id := f.(mask := f.mask - LeapingCollisionGroup)]]
              else
                && comp.disabledFixtureMasks == old(comp.disabledFixtureMasks)
                && world.fixtures == old(world.fixtures)
    {
      var fixture := world.fixtures[uid][id];
      if id in comp.disabledFixtureMasks || !fixture.hard || fixture.mask * LeapingCollisionGroup == {} {
        return;
      }
      comp.disabledFixtureMasks := comp.disabledFixtureMasks[id := fixture.mask * LeapingCollisionGroup];
      world.SetCollisionMask(uid, id, fixture.mask - LeapingCollisionGroup);
    }

    /** The leap's duration has elapsed: the body is back on the ground,
        `jumping` is cleared, `checkColliding` is set and clearance is checked
        at once. */
    method FinishLeap(uid: Uid, comp: LeapComponent, world: World, intersecting: seq<Uid>)
      requires Valid() && comp.Valid()
      modifies this, comp`jumping, comp`checkColliding, comp`disabledFixtureMasks, world`fixtures, world`inAir
      ensures Valid() && comp.Valid()
      ensures uid !in old(world.bodies) ==> unchanged(this, comp, world)
      ensures uid in old(world.bodies) ==>
        && !comp.jumping && comp.checkColliding
        && world.inAir == old(world.inAir) - {uid}
        && if uid in old(world.fixtures) && !IntersectsClimbable(intersecting, world.climbable)
           then CollisionsReturned(uid, comp, world)
           else CollisionsKept(comp, world)
    {
      if uid !in world.bodies {
        return;
      }
      comp.checkColliding := true;
      comp.jumping := false;
      world.inAir := world.inAir - {uid};
      FinishCheck(uid, comp, world, intersecting);
    }

    /** Clearance after landing: collisions are returned unless some entity
        intersecting the body is climbable. `checkColliding` is left as it is. */
    method FinishCheck(uid: Uid, comp: LeapComponent, world: World, intersecting: seq<Uid>)
      requires Valid() && comp.Valid()
      modifies this, comp`disabledFixtureMasks, world`fixtures
      ensures Valid() && comp.Valid()
      ensures if uid in old(world.fixtures) && uid in world.bodies && !IntersectsClimbable(intersecting, world.climbable)
              then CollisionsReturned(uid, comp, world)
              else CollisionsKept(comp, world)
    {
      if !(uid in world.fixtures && uid in world.bodies) {
        return;
      }
      var blocked := LandingBlocked(world, intersecting);
      if blocked {
        return;
      }
      ReturnLeapCollisions(uid, comp, world);
    }

    /** The loop of the landing check: whether any intersecting entity has a
        climbable component. */
    static method LandingBlocked(world: World, intersecting: seq<Uid>) returns (found: bool)
      ensures found <==> IntersectsClimbable(intersecting, world.climbable)
    {
      for i := 0 to |intersecting|
        invariant forall k :: 0 <= k < i ==> intersecting[k] !in world.climbable
      {
        if intersecting[i] in world.climbable {
          return true;
        }
      }
      return false;
    }

    /** A contact of some fixture ended. It matters only for the probe, after
        landing, while clearance is being checked; then, unless the contact
        test refuses, both flags are cleared and collisions are returned. */
    method OnLeapCollisionEnd(uid: Uid, comp: LeapComponent, world: World, ev: EndCollideEvent)
      requires Valid() && comp.Valid()
      modifies this, comp`jumping, comp`checkColliding, comp`disabledFixtureMasks, world`fixtures
      ensures Valid() && comp.Valid()
      ensures !EndCollideEngages(ev, old(comp.jumping), old(comp.checkColliding)) || ContactKeepsBlocked(ev, world.climbable) ==>
        unchanged(comp) && CollisionsKept(comp, world)
      ensures EndCollideEngages(ev, old(comp.jumping), old(comp.checkColliding)) && !ContactKeepsBlocked(ev, world.climbable) ==>
        && !comp.jumping && !comp.checkColliding
        && if uid in old(world.fixtures) then CollisionsReturned(uid, comp, world) else CollisionsKept(comp, world)
    {
      if ev.ourFixture.id != LeapingFixtureName || comp.jumping || !comp.checkColliding {
        return;
      }
      var blocked := ContactBlocksClearance(world, ev);
      if blocked {
        return;
      }
      comp.jumping := false;
      comp.checkColliding := false;
      ReturnLeapCollisions(uid, comp, world);
    }

    /** The loop of the collision-end check: over the probe's contacts other
        than the ending one, whether the other entity of the ending contact is
        climbable. */
    static method ContactBlocksClearance(world: World, ev: EndCollideEvent) returns (blocked: bool)
      ensures blocked <==> ContactKeepsBlocked(ev, world.climbable)
    {
      for i := 0 to |ev.ourContacts|
        invariant ev.otherEntity in world.climbable ==> forall k :: 0 <= k < i ==> ev.ourContacts[k] == ev.otherFixture
      {
        if ev.ourContacts[i] == ev.otherFixture {
          continue;
        }
        if ev.otherEntity in world.climbable {
          return true;
        }
      }
      return false;
    }

    /** Returns the suppressed collisions of `uid` and queues its probe for
        destruction; nothing happens to an entity without fixtures. */
    method ReturnLeapCollisions(uid: Uid, comp: LeapComponent, world: World)
      requires Valid()
      modifies this, comp`disabledFixtureMasks, world`fixtures
      ensures Valid()
      ensures old(comp.Valid()) ==> comp.Valid()
      ensures if uid in old(world.fixtures) then CollisionsReturned(uid, comp, world) else CollisionsKept(comp, world)
    {
      if uid !in world.fixtures {
        return;
      }
      ghost var fixtures0 := world.fixtures;
      ghost var fx0 := world.fixtures[uid];
      ghost var queue0 := fixtureRemoveQueue;
      var saved := comp.disabledFixtureMasks;
      ghost var target := Restored(fx0, saved);
      RestoreStart(fx0, saved);
      var todo := saved.Keys;
      while todo != {}
        invariant todo <= saved.Keys && fixtureRemoveQueue == queue0
        invariant uid in world.fixtures && world.fixtures == fixtures0[uid := world.fixtures[uid]]
        invariant UpdatedSoFar(fx0, target, todo, world.fixtures[uid])
        decreases todo
      {
        var id :| id in todo;
        ghost var cur := world.fixtures[uid];
        if id in world.fixtures[uid] {
          RestoredAt(fx0, saved, id);
          UpdatedSoFarSet(fx0, target, todo, cur, id);
          var fixture := world.fixtures[uid][id];
          world.SetCollisionMask(uid, id, fixture.mask + saved[id]);
          UpdateTwice(fixtures0, uid, cur, world.fixtures[uid]);
        } else {
          UpdatedSoFarSkip(fx0, target, todo, cur, id);
        }
        todo := todo - {id};
      }
      UpdatedSoFarDone(fx0, target, world.fixtures[uid]);
      comp.disabledFixtureMasks := map[];

      var removeQueue: seq<string> := [];
      if uid in fixtureRemoveQueue {
        removeQueue := fixtureRemoveQueue[uid];
        assert fixtureRemoveQueue == queue0[uid := removeQueue];
      } else {
        fixtureRemoveQueue := fixtureRemoveQueue[uid := removeQueue];
      }
      if LeapingFixtureName in world.fixtures[uid] {
        removeQueue := removeQueue + [LeapingFixtureName];
        UpdateTwice(queue0, uid, Pending(queue0, uid), removeQueue);
        fixtureRemoveQueue := fixtureRemoveQueue[uid := removeQueue];
      }
      EnqueuedHoldsProbes(queue0, uid, target);
    }

    /** Once per tick: destroys the queued fixtures of each entity that still
        has a physics and a fixtures component, then empties the whole queue. */
    method Update(world: World)
      requires Valid()
      modifies this, world`fixtures
      ensures Valid() && fixtureRemoveQueue == map[]
      ensures world.fixtures == Flushed(old(world.fixtures), world.bodies, old(fixtureRemoveQueue))
    {
      ghost var fixtures0 := world.fixtures;
      ghost var target := Flushed(fixtures0, world.bodies, fixtureRemoveQueue);
      UpdatedSoFarStart(fixtures0, target, fixtureRemoveQueue.Keys);
      var queue := fixtureRemoveQueue;
      var todo := queue.Keys;
      while todo != {}
        invariant todo <= queue.Keys
        invariant UpdatedSoFar(fixtures0, target, todo, world.fixtures)
        decreases todo
      {
        var uid :| uid in todo;
        if uid in world.bodies && uid in world.fixtures {
          UpdatedSoFarSet(fixtures0, target, todo, world.fixtures, uid);
          DestroyQueued(uid, queue[uid], world);
        } else {
          UpdatedSoFarSkip(fixtures0, target, todo, world.fixtures, uid);
        }
        todo := todo - {uid};
      }
      UpdatedSoFarDone(fixtures0, target, world.fixtures);
      fixtureRemoveQueue := map[];
    }

    /** The inner loop of the update: destroys the listed fixtures of one
        entity, in order; an ID already gone is ignored. */
    static method DestroyQueued(uid: Uid, ids: seq<string>, world: World)
      requires uid in world.fixtures
      modifies world`fixtures
      ensures world.fixtures == old(world.fixtures)[uid := old(world.fixtures)[uid] - QueuedIds(ids)]
    {
      ghost var before := world.fixtures;
      for j := 0 to |ids|
        invariant uid in world.fixtures && world.fixtures == before[uid := world.fixtures[uid]]
        invariant world.fixtures[uid] == before[uid] - QueuedIds(ids[..j])
      {
        QueuedIdsStep(ids, j);
        ghost var cur := world.fixtures[uid];
        world.DestroyFixture(uid, ids[j]);
        UpdateTwice(before, uid, cur, world.fixtures[uid]);
      }
      assert ids[..|ids|] == ids;
    }

    /** Round restart: the queue is emptied and pending destructions dropped. */
    method Reset()
      modifies this
      ensures Valid() && fixtureRemoveQueue == map[]
    {
      fixtureRemoveQueue := map[];
    }
  }
}
