/**
 * The bird enemy's chase logic. Each frame the bird chases exactly when the
 * player is outside every safe zone and strictly closer than
 * `followDistance`. Starting a chase plays the eagle sound once and switches
 * patrol (path following) off; ending it switches patrol back on. The
 * physics step moves the bird towards the player only while it chases.
 */
module BirdChase {
  import opened Runtime
  import opened SafeZones
  import opened PathFollowing

  /** The bird's observable chase state: the chasing flag, its path follower's `enabled` flag (None without one) and how often the eagle sound played. */
  datatype ChaseState = ChaseState(isChasing: bool, followerEnabled: Option<bool>, eagleSoundPlays: nat)

  /** The condition `Update` tests; the comparison is strict. */
  predicate ChaseGuard(playerSafe: bool, distance: real, followDistance: real) {
    !playerSafe && distance < followDistance
  }

  function Disable(enabled: Option<bool>): Option<bool> {
    if enabled.Some? then Some(false) else None
  }

  function Enable(enabled: Option<bool>): Option<bool> {
    if enabled.Some? then Some(true) else None
  }

  /** One `Update` with the player's safety and distance as inputs; `canPlaySound` is whether an audio source and clip are attached. */
  function ChaseUpdate(s: ChaseState, playerSafe: bool, distance: real, followDistance: real, canPlaySound: bool): (r: ChaseState)
    ensures r.isChasing <==> ChaseGuard(playerSafe, distance, followDistance)
    ensures r.eagleSoundPlays == s.eagleSoundPlays + (if canPlaySound && !s.isChasing && r.isChasing then 1 else 0)
    ensures r.isChasing == s.isChasing ==> r == s
    ensures r.followerEnabled.Some? <==> s.followerEnabled.Some?
    ensures r.isChasing != s.isChasing && s.followerEnabled.Some? ==> r.followerEnabled == Some(!r.isChasing)
  {
    if ChaseGuard(playerSafe, distance, followDistance) then
      if !s.isChasing then
        ChaseState(true, Disable(s.followerEnabled), s.eagleSoundPlays + (if canPlaySound then 1 else 0))
      else s
    else if s.isChasing then
      ChaseState(false, Enable(s.followerEnabled), s.eagleSoundPlays)
    else s
  }

  /** A player in a safe zone is never chased, at any distance. */
  lemma SafePlayerNotChased(s: ChaseState, distance: real, followDistance: real, canPlaySound: bool)
    ensures !ChaseUpdate(s, true, distance, followDistance, canPlaySound).isChasing
  {
  }

  /** A bird exactly at `followDistance` does not chase. */
  lemma BoundaryNotChased(s: ChaseState, playerSafe: bool, followDistance: real, canPlaySound: bool)
    ensures !ChaseUpdate(s, playerSafe, followDistance, followDistance, canPlaySound).isChasing
  {
  }

  /** Patrol is enabled exactly when the bird is not chasing, once that holds. */
  lemma FollowerMirrorsChase(s: ChaseState, playerSafe: bool, distance: real, followDistance: real, canPlaySound: bool)
    requires s.followerEnabled.Some? ==> s.followerEnabled == Some(!s.isChasing)
    ensures var r := ChaseUpdate(s, playerSafe, distance, followDistance, canPlaySound);
      r.followerEnabled.Some? ==> r.followerEnabled == Some(!r.isChasing)
  {
  }

  /** One frame's inputs: whether the player is safe and how far away it is. */
  datatype Tick = Tick(playerSafe: bool, distance: real)

  /** The chase state after a run of frames. */
  function ChaseRun(s: ChaseState, ticks: seq<Tick>, followDistance: real, canPlaySound: bool): ChaseState
    decreases |ticks|
  {
    if |ticks| == 0 then s
    else
      var last := ticks[|ticks| - 1];
      ChaseUpdate(ChaseRun(s, ticks[..|ticks| - 1], followDistance, canPlaySound),
                  last.playerSafe, last.distance, followDistance, canPlaySound)
  }

  /** How many frames of a run start a chase: the guard holds there and did not hold the frame before. */
  function ChaseEntries(wasChasing: bool, ticks: seq<Tick>, followDistance: real): nat
    decreases |ticks|
  {
    if |ticks| == 0 then 0
    else
      var last := ticks[|ticks| - 1];
      var before := if |ticks| == 1 then wasChasing
                    else var prev := ticks[|ticks| - 2]; ChaseGuard(prev.playerSafe, prev.distance, followDistance);
      ChaseEntries(wasChasing, ticks[..|ticks| - 1], followDistance)
        + (if !before && ChaseGuard(last.playerSafe, last.distance, followDistance) then 1 else 0)
  }

  /** Over any run of frames the eagle sound plays once per chase entry and at no other time. */
  lemma {:induction false} SoundOncePerEntry(s: ChaseState, ticks: seq<Tick>, followDistance: real, canPlaySound: bool)
    decreases |ticks|
    ensures var r := ChaseRun(s, ticks, followDistance, canPlaySound);
      && r.eagleSoundPlays == s.eagleSoundPlays + (if canPlaySound then ChaseEntries(s.isChasing, ticks, followDistance) else 0)
      && r.isChasing == (if |ticks| == 0 then s.isChasing
                         else ChaseGuard(ticks[|ticks| - 1].playerSafe, ticks[|ticks| - 1].distance, followDistance))
  {
    if |ticks| > 0 {
      var init := ticks[..|ticks| - 1];
      SoundOncePerEntry(s, init, followDistance, canPlaySound);
      if |ticks| > 1 {
        assert init[|init| - 1] == ticks[|ticks| - 2];
      }
    }
  }

  /** While the guard keeps holding, a chase is entered at most once. */
  lemma {:induction false} SustainedChaseEntersOnce(wasChasing: bool, ticks: seq<Tick>, followDistance: real)
    requires forall i :: 0 <= i < |ticks| ==> ChaseGuard(ticks[i].playerSafe, ticks[i].distance, followDistance)
    decreases |ticks|
    ensures ChaseEntries(wasChasing, ticks, followDistance) == (if wasChasing || |ticks| == 0 then 0 else 1)
  {
    if |ticks| > 0 {
      SustainedChaseEntersOnce(wasChasing, ticks[..|ticks| - 1], followDistance);
    }
  }

  class BirdEnemy {
    const followDistance: real
    /** Whether both an AudioSource and the eagle clip are attached. */
    const canPlaySound: bool
    const pathFollower: PathFollower?
    /** The SafeZone component found on the player (None when missing). */
    const playerSafeZone: SafeZone?
    var isChasing: bool
    var eagleSoundPlays: nat
    /** Physics steps in which the bird moved towards the player. */
    var chaseMoves: nat

    ghost function State(): ChaseState
      reads this, pathFollower
    {
      ChaseState(isChasing, if pathFollower == null then None else Some(pathFollower.enabled), eagleSoundPlays)
    }

    /** Field initialisers and `Start`, with the components it looks up passed in. */
    constructor Start(followDistance: real, canPlaySound: bool, pathFollower: PathFollower?, playerSafeZone: SafeZone?)
      ensures this.followDistance == followDistance && this.canPlaySound == canPlaySound
      ensures this.pathFollower == pathFollower && this.playerSafeZone == playerSafeZone
      ensures !isChasing && eagleSoundPlays == 0 && chaseMoves == 0
    {
      this.followDistance := followDistance;
      this.canPlaySound := canPlaySound;
      this.pathFollower := pathFollower;
      this.playerSafeZone := playerSafeZone;
      isChasing := false;
      eagleSoundPlays := 0;
      chaseMoves := 0;
    }

    /** One frame, with the distance to the player as an input. Without a SafeZone the guard dereferences null and throws first. */
    method Update(distanceToPlayer: real)
      modifies this, pathFollower
      ensures playerSafeZone == null ==> State() == old(State())
      ensures playerSafeZone != null ==>
        State() == ChaseUpdate(old(State()), playerSafeZone.isPlayerSafe, distanceToPlayer, followDistance, canPlaySound)
      ensures chaseMoves == old(chaseMoves)
      ensures pathFollower != null ==> pathFollower.currentWaypointIndex == old(pathFollower.currentWaypointIndex)
    {
      if playerSafeZone == null {
        return;
      }
      if !playerSafeZone.isPlayerSafe && distanceToPlayer < followDistance {
        if !isChasing {
          isChasing := true;
          PlayEagleSound();
          ChasePlayer();
        }
      } else {
        if isChasing {
          isChasing := false;
          ResumePatrol();
        }
      }
    }

    method PlayEagleSound()
      modifies this
      ensures eagleSoundPlays == old(eagleSoundPlays) + (if canPlaySound then 1 else 0)
      ensures isChasing == old(isChasing) && chaseMoves == old(chaseMoves)
    {
      if canPlaySound {
        eagleSoundPlays := eagleSoundPlays + 1;
      }
    }

    method ChasePlayer()
      modifies pathFollower
      ensures pathFollower != null ==> !pathFollower.enabled
      ensures pathFollower != null ==> pathFollower.currentWaypointIndex == old(pathFollower.currentWaypointIndex)
    {
      if pathFollower != null {
        pathFollower.enabled := false;
      }
    }

    method ResumePatrol()
      modifies pathFollower
      ensures pathFollower != null ==> pathFollower.enabled
      ensures pathFollower != null ==> pathFollower.currentWaypointIndex == old(pathFollower.currentWaypointIndex)
    {
      if pathFollower != null {
        pathFollower.enabled := true;
      }
      // otherwise "cannot resume patrol" is only logged
    }

    /** One physics step: the bird flies towards the player only while chasing. */
    method FixedUpdate()
      modifies this
      ensures chaseMoves == old(chaseMoves) + (if isChasing then 1 else 0)
      ensures isChasing == old(isChasing) && eagleSoundPlays == old(eagleSoundPlays)
    {
      if isChasing {
        chaseMoves := chaseMoves + 1;
      }
    }
  }
}
