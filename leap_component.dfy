/**
 The per-entity state of the leap ability. It has no behaviour of its own:
 `LeapSystems.LeapSystem` updates its flags and saved masks in place.
 */
module Leap {
  import opened Physics
  import opened LeapSpec

  class LeapComponent {
    /** Prototype ID of the sidebar action that triggers a leap. */
    var leapForwardAction: string
    /** Stamina a leap costs. */
    var staminaCost: int
    /** For each fixture the current leap suppressed, keyed by fixture ID, the
        collision-mask bits it lost. */
    var disabledFixtureMasks: map<string, Mask>
    /** True from leap start until the leap's duration has elapsed. */
    var jumping: bool
    /** True from landing until the body is confirmed clear of climbable
        obstacles; collision-end events are consulted only meanwhile. */
    var checkColliding: bool

    /** Every saved entry is a non-empty part of the leaping collision group. */
    ghost predicate Valid()
      reads this
    {
      SavedWithinGroup(disabledFixtureMasks, LeapingCollisionGroup)
    }

    /** A fresh component: the default action and cost, no saved masks, not
        leaping and not checking. */
    constructor ()
      ensures Valid()
      ensures leapForwardAction == "LeapForward" && staminaCost == 20
      ensures disabledFixtureMasks == map[]
      ensures !jumping && !checkColliding
    {
      leapForwardAction := "LeapForward";
      staminaCost := 20;
      disabledFixtureMasks := map[];
      jumping := false;
      checkColliding := false;
    }
  }
}
