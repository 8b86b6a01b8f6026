/**
 * The jump bookkeeping of the player controller: a ground raycast resets
 * the jump counter, Space jumps while fewer than two jumps were made since
 * (a regular jump and a double jump), and a player touching a wall who has
 * no jump left can wall-jump, which leaves exactly one more jump.
 */
module Jumping {

  /** `maxJumps`: one regular jump and one double jump. */
  const MAX_JUMPS: int := 2

  const GroundTag: string := "Ground"
  const WallTag: string := "Wall"

  /** Which jump, if any, a frame performed. */
  datatype Jump = NoJump | RegularJump | WallJump

  datatype JumpState = JumpState(isGrounded: bool, isTouchingWall: bool, jumpCount: int)

  /** The controller's starting flags. */
  const Initial: JumpState := JumpState(true, false, 0)

  ghost predicate JumpInv(s: JumpState) {
    0 <= s.jumpCount <= MAX_JUMPS
  }

  /** `CheckIfGrounded`, with the raycast's result as an input. */
  function CheckGround(s: JumpState, rayHit: bool): (r: JumpState)
    ensures r.isGrounded == rayHit && r.isTouchingWall == s.isTouchingWall
    ensures r.jumpCount == if rayHit then 0 else s.jumpCount
    ensures JumpInv(s) ==> JumpInv(r)
  {
    if rayHit then s.(isGrounded := true, jumpCount := 0) else s.(isGrounded := false)
  }

  /** `HandleJump`, with whether Space went down this frame as an input. */
  function JumpStep(s: JumpState, spacePressed: bool): (r: (JumpState, Jump))
    ensures !spacePressed ==> r == (s, NoJump)
    ensures r.1.RegularJump? <==> spacePressed && s.jumpCount < MAX_JUMPS
    ensures r.1.RegularJump? ==> r.0.jumpCount == s.jumpCount + 1
    ensures r.1.WallJump? <==> spacePressed && s.jumpCount >= MAX_JUMPS && s.isTouchingWall
    ensures r.1.WallJump? ==> r.0.jumpCount == 1
    ensures r.1.NoJump? ==> r.0 == s
    ensures r.0.isGrounded == s.isGrounded && r.0.isTouchingWall == s.isTouchingWall
    ensures JumpInv(s) ==> JumpInv(r.0)
  {
    if s.jumpCount < MAX_JUMPS && spacePressed then (s.(jumpCount := s.jumpCount + 1), RegularJump)
    else if s.isTouchingWall && spacePressed then (s.(jumpCount := 1), WallJump)
    else (s, NoJump)
  }

  /** `Update`: the ground check, then the jump. */
  function Frame(s: JumpState, rayHit: bool, spacePressed: bool): (r: (JumpState, Jump))
    ensures JumpInv(s) ==> JumpInv(r.0)
  {
    JumpStep(CheckGround(s, rayHit), spacePressed)
  }

  /** `OnCollisionEnter` with an object tagged `tag`. */
  function CollisionEnter(s: JumpState, tag: string): (r: JumpState)
    ensures r.jumpCount == s.jumpCount
    ensures r.isGrounded <==> s.isGrounded || tag == GroundTag
    ensures r.isTouchingWall <==> s.isTouchingWall || tag == WallTag
  {
    if tag == GroundTag then s.(isGrounded := true)
    else if tag == WallTag then s.(isTouchingWall := true)
    else s
  }

  /** `OnCollisionExit` with an object tagged `tag`. */
  function CollisionExit(s: JumpState, tag: string): (r: JumpState)
    ensures r.jumpCount == s.jumpCount && r.isGrounded == s.isGrounded
    ensures r.isTouchingWall <==> s.isTouchingWall && tag != WallTag
  {
    if tag == WallTag then s.(isTouchingWall := false) else s
  }

  /** Collisions with objects tagged neither Ground nor Wall change nothing. */
  lemma OtherCollisionsIgnored(s: JumpState, tag: string)
    requires tag != GroundTag && tag != WallTag
    ensures CollisionEnter(s, tag) == s && CollisionExit(s, tag) == s
  {
  }

  /** Standing on ground, Space always gives a regular jump and leaves one jump in hand. */
  lemma JumpFromGround(s: JumpState)
    ensures Frame(s, true, true) == (CheckGround(s, true).(jumpCount := 1), RegularJump)
  {
  }

  /** The regular jumps made in a run of airborne frames (no ground under the ray) with the given Space presses. */
  function AirJumps(s: JumpState, presses: seq<bool>): (r: (JumpState, nat))
    decreases |presses|
  {
    if |presses| == 0 then (s, 0)
    else
      var (next, jump) := Frame(s, false, presses[0]);
      var (final, jumps) := AirJumps(next, presses[1..]);
      (final, jumps + (if jump.RegularJump? then 1 else 0))
  }

  /** Away from ground and walls, no more than `MAX_JUMPS - jumpCount` jumps follow, however often Space is pressed. */
  lemma {:induction false} AirJumpsBounded(s: JumpState, presses: seq<bool>)
    requires JumpInv(s) && !s.isTouchingWall
    decreases |presses|
    ensures AirJumps(s, presses).1 <= MAX_JUMPS - s.jumpCount
    ensures AirJumps(s, presses).0.jumpCount >= s.jumpCount
  {
    if |presses| > 0 {
      var (next, jump) := Frame(s, false, presses[0]);
      AirJumpsBounded(next, presses[1..]);
    }
  }

  class PlayerMovement {
    var isGrounded: bool
    var isTouchingWall: bool
    var jumpCount: int

    ghost function State(): JumpState
      reads this
    {
      JumpState(isGrounded, isTouchingWall, jumpCount)
    }

    /** Field initialisers; `Start` itself only sets up physics, animation and the cursor. */
    constructor ()
      ensures State() == Initial
    {
      isGrounded := true;
      isTouchingWall := false;
      jumpCount := 0;
    }

    method Update(rayHit: bool, spacePressed: bool) returns (jump: Jump)
      modifies this
      ensures (State(), jump) == Frame(old(State()), rayHit, spacePressed)
    {
      CheckIfGrounded(rayHit);
      jump := HandleJump(spacePressed);
    }

    method CheckIfGrounded(rayHit: bool)
      modifies this
      ensures State() == CheckGround(old(State()), rayHit)
    {
      isGrounded := rayHit;
      if isGrounded {
        jumpCount := 0;
      }
    }

    method HandleJump(spacePressed: bool) returns (jump: Jump)
      modifies this
      ensures (State(), jump) == JumpStep(old(State()), spacePressed)
    {
      if jumpCount < MAX_JUMPS && spacePressed {
        // PerformJump applies the upward impulse
        jumpCount := jumpCount + 1;
        jump := RegularJump;
      } else if isTouchingWall && spacePressed {
        PerformWallJump();
        jump := WallJump;
      } else {
        jump := NoJump;
      }
    }

    /** The wall jump's effect on the counter; its impulse away from the wall is not modelled. */
    method PerformWallJump()
      modifies this
      ensures jumpCount == 1
      ensures isGrounded == old(isGrounded) && isTouchingWall == old(isTouchingWall)
    {
      jumpCount := 1;
    }

    method OnCollisionEnter(tag: string)
      modifies this
      ensures State() == CollisionEnter(old(State()), tag)
    {
      if tag == GroundTag {
        isGrounded := true;
      } else if tag == WallTag {
        isTouchingWall := true;
      }
    }

    method OnCollisionExit(tag: string)
      modifies this
      ensures State() == CollisionExit(old(State()), tag)
    {
      if tag == WallTag {
        isTouchingWall := false;
      }
    }
  }
}
