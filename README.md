# Game-state bookkeeping of an open-world Unity game, in Dafny

This project models the game-state logic of the Unity scripts of a small
open-world game: a player who collects items and carries them to safe zones,
birds that patrol waypoint paths and chase the player, and a spawner that
releases more birds as the score climbs. Physics, input, audio and UI are
abstracted away. What is left is a set of small state machines over integers,
booleans and fixed-size pools. Each MonoBehaviour is a Dafny class whose
methods update its fields the way the C# does. Each class is proved against a
pure specification function over a state datatype, and the game's promises
are lemmas about those functions.

- `BirdSpawning` (BirdSpawner.cs): a pool of `poolSize` birds, each just an
  active flag plus the spawn point it was placed at. `CheckAndSpawnBird(score)`
  acts only on a new multiple of 5. It then spawns `birdsToSpawn` birds by
  first-inactive search and raises `birdsToSpawn` by one. The random spawn
  point is a nondeterministic valid index. An empty `spawnPoints` array makes
  `spawnPoints[Random.Range(0, 0)]` throw; the model has this as the outcome
  `SpawnPointMissing`, which ends the milestone early.
- `Collectibles` (CollectibleManager.cs): the carry loop. Picking up is
  refused while carrying. A pick-up raises the score and notifies the
  spawner. A drop-off shows the next pooled collectible at a round-robin
  spawn index.
- `SafeZones` (SafeZone.cs): the player-only `isPlayerSafe` flag. Entering
  also drops off a carried collectible.
- `BirdChase` (BirdEnemy.cs): `isChasing` follows the guard
  `!isPlayerSafe && distance < followDistance`. The eagle sound plays once
  per chase entry. Path following is switched off while chasing and back on
  afterwards. The bird reads a `SafeZone` and drives its `PathFollower`
  through object references passed to its constructor.
- `PathFollowing` (PathFollower.cs): a cyclic waypoint index with an
  empty-path guard. Whether the bird has arrived is an input.
- `Health` (PlayerManager.cs): `TakeDamage` and `Heal` with Unity's
  `Mathf.Clamp`, and death as a counter of `Die` calls. C# `int` arithmetic
  wraps modulo 2^32, and both `TakeDamage` and `Heal` keep that wrap as
  written; `Healed` is the saturating heal evidently intended (see below).
- `Jumping` (Player_Movement.cs): the jump counter with double jump, wall
  jump and reset on ground, and the wall-contact and ground flags.
- `Runtime` and `Pools`: the 32-bit `int` type and wrap-around, Unity's
  `Mathf.Clamp` (int overload), nullable references as `Option`, and the
  first-inactive search and active count that both pools use.
  UnityEngine's `Mathf` is not part of this model. `Clamp` follows the
  engine's integer overload: below `min` gives `min`, otherwise above `max`
  gives `max`.

The engine's event callbacks (`Update`, `FixedUpdate`, `OnTriggerEnter`,
`OnCollisionEnter`, ...) are methods called by the client. Values the engine
computes are method parameters: distances, waypoint arrival, the ground
raycast and the Space key. Component lookups (`GetComponent`) become
references passed to the constructors, and `SetActive` /
`activeInHierarchy` become a `bool` array.

The chase comparison is strict (`<`, BirdEnemy.cs line 49).

## Model

| member | source | states |
|---|---|---|
| Runtime.Wrap32 | Assets/Scripts/PlayerManager.cs:20 | C# unchecked `int` arithmetic: a result that is in range is unchanged, and one just out of range wraps by 2^32 |
| Runtime.Clamp | Assets/Scripts/PlayerManager.cs:21 | `Mathf.Clamp`: the result lies in [min, max] when min <= max, a value in range is kept, and a value below min gives min |
| Pools.FirstInactive | Assets/Scripts/BirdSpawner.cs:65-74 | the result is an inactive entry with every earlier entry active, and it is None exactly when every entry is active |
| Pools.ActiveCount | Assets/Scripts/BirdSpawner.cs:10 | the number of active pool entries never exceeds the pool size |
| Pools.AllInactive | Assets/Scripts/BirdSpawner.cs:17-22 | a freshly filled pool has the requested size and every entry is inactive |
| Pools.AllInactiveCount | Assets/Scripts/BirdSpawner.cs:17-22 | a freshly filled pool has no active entry |
| Pools.ActivateCount | Assets/Scripts/BirdSpawner.cs:53 | switching one inactive entry on raises the active count by exactly one |
| Pools.DeactivateCount | Assets/Scripts/CollectibleManager.cs:48 | switching one active entry off lowers the active count by exactly one |
| Pools.ExhaustedIffFull | Assets/Scripts/BirdSpawner.cs:65-74 | the search finds nothing exactly when the active count equals the pool size |
| BirdSpawning.InitialSpawner | Assets/Scripts/BirdSpawner.cs:10-22 | after `Start`, the pool holds exactly `poolSize` birds and none is active |
| BirdSpawning.SpawnStep | Assets/Scripts/BirdSpawner.cs:45-60 | one spawn never grows the pool and keeps active birds active. It activates at most one bird, the first inactive one. An exhausted pool, or an empty spawn-point array, leaves the pool unchanged |
| BirdSpawning.SpawnRepeat | Assets/Scripts/BirdSpawner.cs:34-37 | repeated spawns keep the pool size and the active birds. They throw exactly when there are no spawn points and an inactive bird exists, and then change nothing |
| BirdSpawning.MilestoneStep | Assets/Scripts/BirdSpawner.cs:26-42 | nothing changes unless `score % 5 == 0 && score > lastScoreChecked`. Otherwise `lastScoreChecked` becomes `score` and `birdsToSpawn` rises by exactly one, unless a spawn threw |
| BirdSpawning.SpawnRepeatCount | Assets/Scripts/BirdSpawner.cs:34-37 | with spawn points present, k spawns switch on exactly min(k, inactive birds) birds |
| BirdSpawning.MilestoneSpawnCount | Assets/Scripts/BirdSpawner.cs:30-39 | a milestone switches on min(old `birdsToSpawn`, inactive birds) birds, and any other score switches on none |
| BirdSpawning.MilestonePreserves | Assets/Scripts/BirdSpawner.cs:30-39 | `birdsToSpawn >= 1`, and `lastScoreChecked` is a non-negative multiple of 5 that bounds `birdsToSpawn`. Both counters and every active bird stay (non-decreasing) |
| BirdSpawning.MilestoneIdempotent | Assets/Scripts/BirdSpawner.cs:30 | a second call with the same score changes nothing |
| BirdSpawning.Escalation | Assets/Scripts/BirdSpawner.cs:30-39 | from a fresh pool, milestones 5, 10, ..., 5k leave 1 + 2 + ... + k birds active, capped by the pool size, with `birdsToSpawn == k + 1` |
| BirdSpawning.EscalationFiveTenFifteen | Assets/Scripts/BirdSpawner.cs:34-39 | with at least 6 birds, milestones 5, 10 and 15 spawn 1, 2 and 3 birds |
| BirdSpawning.ScoresActOnlyAtMilestones | Assets/Scripts/CollectibleManager.cs:50-58 | while the pick-up count climbs 1, 2, ..., m, the spawner ends where milestones 5, ..., 5(m / 5) alone leave it |
| BirdSpawning.BirdSpawner.Start | Assets/Scripts/BirdSpawner.cs:14-23 | the pool is filled with `poolSize` inactive birds (none if negative), and the counters start at 0 and 1 |
| BirdSpawning.BirdSpawner.GetPooledBird | Assets/Scripts/BirdSpawner.cs:63-75 | returns the first inactive bird in list order, or None when every bird is active |
| BirdSpawning.BirdSpawner.SpawnBird | Assets/Scripts/BirdSpawner.cs:45-60 | the pool changes as `SpawnStep` says. The activated bird sits at a spawn point in [0, spawnPoints.Length), and no other bird moves |
| BirdSpawning.BirdSpawner.CheckAndSpawnBird | Assets/Scripts/BirdSpawner.cs:26-42 | the state changes as `MilestoneStep` says, and already active birds keep their spawn point |
| Collectibles.ActivateNext | Assets/Scripts/CollectibleManager.cs:82-98 | only the first hidden entry is shown, at the current spawn point, and the index advances by 1 mod `spawnPoints.Length`. With no hidden entry nothing changes. The index stays in range |
| Collectibles.Instantiated | Assets/Scripts/CollectibleManager.cs:22-27 | one hidden collectible per spawn point, which keeps the manager's invariant |
| Collectibles.StartCarry | Assets/Scripts/CollectibleManager.cs:19-31 | after `Start`, exactly one collectible is shown (the first, at spawn point 0). The next index is 1 mod n, and score and carrying are zero and false |
| Collectibles.Collect | Assets/Scripts/CollectibleManager.cs:46-62 | `collectibleCount` rises by exactly one and the touched object is carried and hidden; nothing else in the pool changes |
| Collectibles.Touch | Assets/Scripts/CollectibleManager.cs:33-43 | a Collectibles-tagged contact while not carrying is a pick-up; anything else changes nothing |
| Collectibles.Drop | Assets/Scripts/CollectibleManager.cs:65-79 | afterwards nothing is carried, the count is unchanged and the invariant holds. Without a carried object nothing changes |
| Collectibles.TouchWhileCarrying | Assets/Scripts/CollectibleManager.cs:35-42 | a contact while already carrying changes no state |
| Collectibles.TouchPreservesInv | Assets/Scripts/CollectibleManager.cs:33-43 | trigger contacts keep the spawn index in range and the carried object hidden |
| Collectibles.CountNeverDecreases | Assets/Scripts/CollectibleManager.cs:50 | a contact raises the count by at most one and a drop-off never changes it |
| Collectibles.DropShowsNext | Assets/Scripts/CollectibleManager.cs:67-74 | dropping off while some entry is hidden shows exactly one more collectible |
| Collectibles.OneInPlayPreserved | Assets/Scripts/CollectibleManager.cs:35-58 | picking up the shown collectible keeps exactly one collectible in play, now carried instead of shown |
| Collectibles.DropKeepsOneInPlay | Assets/Scripts/CollectibleManager.cs:65-74 | dropping off the carried collectible keeps exactly one in play: nothing is carried and exactly one entry is shown |
| Collectibles.StartOneInPlay | Assets/Scripts/CollectibleManager.cs:29-30 | after `Start` with spawn points, exactly one collectible is in play |
| Collectibles.CollectibleManager.Start | Assets/Scripts/CollectibleManager.cs:19-31 | the pool is instantiated and the first collectible is activated, as `StartCarry` says |
| Collectibles.CollectibleManager.IsCarryingCollectible | Assets/Scripts/CollectibleManager.cs:114-117 | the player is carrying exactly when a current collectible is held |
| Collectibles.CollectibleManager.OnTriggerEnter | Assets/Scripts/CollectibleManager.cs:33-43 | the state changes as `Touch` says. On a pick-up, the spawner is stepped by `CheckAndSpawnBird` with the new count, and otherwise it is left alone |
| Collectibles.CollectibleManager.CollectItem | Assets/Scripts/CollectibleManager.cs:46-62 | the state changes as `Collect` says, and the spawner is stepped with the new count |
| Collectibles.CollectibleManager.DropCollectible | Assets/Scripts/CollectibleManager.cs:65-79 | the state changes as `Drop` says, and the spawner is untouched |
| Collectibles.CollectibleManager.ActivateNextCollectible | Assets/Scripts/CollectibleManager.cs:82-98 | the first-inactive loop changes the state as `ActivateNext` says |
| SafeZones.Enter | Assets/Scripts/SafeZone.cs:7-23 | a Player enter sets the flag and leaves nothing carried. Other tags change nothing, and entering while not carrying leaves the collectibles untouched. The score is kept |
| SafeZones.Exit | Assets/Scripts/SafeZone.cs:25-32 | afterwards the player is safe exactly when they were safe and the collider is not the Player |
| SafeZones.EnterIdempotent | Assets/Scripts/SafeZone.cs:11-20 | entering twice gives the same flag and collectible state as entering once |
| SafeZones.ExitIdempotent | Assets/Scripts/SafeZone.cs:29 | leaving twice gives the same flag as leaving once |
| SafeZones.EnterKeepsOneInPlay | Assets/Scripts/SafeZone.cs:15-20 | a drop-off at the zone keeps exactly one collectible in play |
| SafeZones.SafeZone.constructor | Assets/Scripts/SafeZone.cs:5 | the player starts outside every safe zone |
| SafeZones.SafeZone.OnTriggerEnter | Assets/Scripts/SafeZone.cs:7-23 | the flag and the entering player's collectible manager change as `Enter` says |
| SafeZones.SafeZone.OnTriggerExit | Assets/Scripts/SafeZone.cs:25-32 | the flag changes as `Exit` says |
| PathFollowing.NextWaypoint | Assets/Scripts/PathFollower.cs:12-34 | with no waypoints, or without arrival, the index is unchanged. On arrival it moves to the next waypoint, wrapping from the last to 0, and it stays in range |
| PathFollowing.ArrivalsAlongPath | Assets/Scripts/PathFollower.cs:32 | before the end of the path, k arrivals advance the index by k |
| PathFollowing.ArrivalsCompose | Assets/Scripts/PathFollower.cs:32 | a + b arrivals are a arrivals followed by b more |
| PathFollowing.ArrivalsCycle | Assets/Scripts/PathFollower.cs:32 | after `waypoints.Length` consecutive arrivals the index is back where it started |
| PathFollowing.PathFollower.constructor | Assets/Scripts/PathFollower.cs:10 | the index starts at 0 and the component is enabled |
| PathFollowing.PathFollower.Update | Assets/Scripts/PathFollower.cs:12-21 | the index changes as `NextWaypoint` says, stays in range, and the enabled flag is kept |
| PathFollowing.PathFollower.MoveAlongPath | Assets/Scripts/PathFollower.cs:23-34 | on a non-empty path the index changes as `NextWaypoint` says |
| BirdChase.ChaseUpdate | Assets/Scripts/BirdEnemy.cs:44-66 | afterwards the bird chases exactly when `!isPlayerSafe && distance < followDistance`. The sound count rises by one exactly on a false-to-true change (when sound is attached). With no change of the chase flag nothing changes, and on a change the path follower's flag becomes `!isChasing` |
| BirdChase.SafePlayerNotChased | Assets/Scripts/BirdEnemy.cs:49 | a player in a safe zone is never chased, whatever the distance |
| BirdChase.BoundaryNotChased | Assets/Scripts/BirdEnemy.cs:49 | a bird at exactly `followDistance` does not chase |
| BirdChase.FollowerMirrorsChase | Assets/Scripts/BirdEnemy.cs:77-95 | once `pathFollower.enabled == !isChasing` holds, it holds after every `Update` |
| BirdChase.SoundOncePerEntry | Assets/Scripts/BirdEnemy.cs:49-56 | over any run of frames, the eagle sound plays exactly once per chase entry, and the final chase flag is the last frame's guard |
| BirdChase.SustainedChaseEntersOnce | Assets/Scripts/BirdEnemy.cs:51-56 | while the guard keeps holding, further frames enter no new chase |
| BirdChase.BirdEnemy.Start | Assets/Scripts/BirdEnemy.cs:14-42 | the bird starts not chasing, with the looked-up components recorded |
| BirdChase.BirdEnemy.Update | Assets/Scripts/BirdEnemy.cs:44-66 | the chase state changes as `ChaseUpdate` says. Without a SafeZone nothing changes (the guard throws first), and the waypoint index is untouched |
| BirdChase.BirdEnemy.PlayEagleSound | Assets/Scripts/BirdEnemy.cs:68-75 | the sound count rises by one exactly when an audio source and clip are attached |
| BirdChase.BirdEnemy.ChasePlayer | Assets/Scripts/BirdEnemy.cs:77-82 | a present path follower is disabled |
| BirdChase.BirdEnemy.ResumePatrol | Assets/Scripts/BirdEnemy.cs:84-95 | a present path follower is re-enabled |
| BirdChase.BirdEnemy.FixedUpdate | Assets/Scripts/BirdEnemy.cs:97-109 | the bird moves towards the player in a physics step exactly when it is chasing |
| Health.Damaged | Assets/Scripts/PlayerManager.cs:18-21 | health after damage lies in [0, maxHealth] when maxHealth >= 0. For non-negative health and damage it is `clamp(old - damage, 0, maxHealth)` |
| Health.DeathExactlyAtZero | Assets/Scripts/PlayerManager.cs:24-27 | with maxHealth >= 0, `Die` is triggered exactly when health after damage is 0 |
| Health.DamageLowersHealth | Assets/Scripts/PlayerManager.cs:18-27 | damage never raises health, and the player dies exactly when damage reaches the remaining health |
| Health.DamageExample | Assets/Scripts/PlayerManager.cs:20-21 | 100 health and 20 damage leave 80, and the player lives |
| Health.HealedAsWritten | Assets/Scripts/PlayerManager.cs:33-34 | the healed health as written: it lies in [0, maxHealth], and it is the clamped sum when the sum fits in 32 bits |
| Health.HealOverflowEmptiesHealth | Assets/Scripts/PlayerManager.cs:33-34 | as written, healing 100/100 health by int.MaxValue leaves 0 |
| Health.Healed | Assets/Scripts/PlayerManager.cs:31-36 | corrected heal: it lies in [0, maxHealth], and it agrees with the code wherever the sum does not overflow |
| Health.HealNeverLowers | Assets/Scripts/PlayerManager.cs:31-36 | healing in-range health by a non-negative amount gives min(old + amount, maxHealth) |
| Health.PlayerManager.Start | Assets/Scripts/PlayerManager.cs:11-15 | health starts at `maxHealth`, and no death has happened |
| Health.PlayerManager.TakeDamage | Assets/Scripts/PlayerManager.cs:18-28 | health becomes `Damaged(old, damage, maxHealth)`, and `Die` runs exactly when it is at most 0 |
| Health.PlayerManager.Heal | Assets/Scripts/PlayerManager.cs:31-36 | health becomes `HealedAsWritten(old, amount, maxHealth)` (32-bit wrapping sum, then the clamp), and `Die` never runs |
| Health.PlayerManager.Die | Assets/Scripts/PlayerManager.cs:52-56 | one more death is recorded, and health is unchanged |
| Jumping.CheckGround | Assets/Scripts/Player_Movement.cs:67-77 | `isGrounded` becomes the ray's result. A hit resets `jumpCount` to 0, and otherwise it is kept. `0 <= jumpCount <= 2` is kept |
| Jumping.JumpStep | Assets/Scripts/Player_Movement.cs:80-93 | without Space nothing changes. A regular jump happens exactly when `jumpCount < 2` and adds one. A wall jump happens exactly when no regular jump is left and the player touches a wall, and it sets `jumpCount` to 1. The bound is kept |
| Jumping.Frame | Assets/Scripts/Player_Movement.cs:38-43 | a whole `Update` keeps `0 <= jumpCount <= 2` |
| Jumping.CollisionEnter | Assets/Scripts/Player_Movement.cs:116-126 | a Ground contact sets `isGrounded` and a Wall contact sets `isTouchingWall`. Nothing else changes |
| Jumping.CollisionExit | Assets/Scripts/Player_Movement.cs:129-135 | leaving a Wall clears `isTouchingWall`; nothing else changes |
| Jumping.OtherCollisionsIgnored | Assets/Scripts/Player_Movement.cs:118-131 | contacts with other tags change nothing |
| Jumping.JumpFromGround | Assets/Scripts/Player_Movement.cs:70-87 | on ground, Space always gives a regular jump and leaves `jumpCount == 1` |
| Jumping.AirJumpsBounded | Assets/Scripts/Player_Movement.cs:83-87 | airborne and away from walls, at most `2 - jumpCount` jumps follow, however often Space is pressed |
| Jumping.PlayerMovement.constructor | Assets/Scripts/Player_Movement.cs:23-25 | the player starts grounded, off any wall, with no jump made |
| Jumping.PlayerMovement.Update | Assets/Scripts/Player_Movement.cs:38-43 | the ground check runs, then the jump, as `Frame` says |
| Jumping.PlayerMovement.CheckIfGrounded | Assets/Scripts/Player_Movement.cs:67-77 | the flags change as `CheckGround` says |
| Jumping.PlayerMovement.HandleJump | Assets/Scripts/Player_Movement.cs:80-93 | the jump count changes as `JumpStep` says, and the method reports which jump happened |
| Jumping.PlayerMovement.PerformWallJump | Assets/Scripts/Player_Movement.cs:105-113 | `jumpCount` becomes 1, and the contact flags are kept |
| Jumping.PlayerMovement.OnCollisionEnter | Assets/Scripts/Player_Movement.cs:116-126 | the flags change as `CollisionEnter` says |
| Jumping.PlayerMovement.OnCollisionExit | Assets/Scripts/Player_Movement.cs:129-135 | the flags change as `CollisionExit` says |

## Left out

- Floating-point motion and rotation are not modelled: the chase step with `normalized` and `Slerp`, `Vector3.MoveTowards` and `Vector3.Distance` in the path follower, `HandleMovement`, `HandleMouseLook`, and the forces and velocity reset in `PerformJump`. Distances, waypoint arrival and the ground raycast are inputs, and a bird's chase movement is a counter of physics steps.
- Engine calls are abstracted. `Instantiate` and `SetActive` are writes to the active-flag arrays. `GetComponent` becomes constructor arguments. `Input.GetKeyDown` is a boolean input, and `Random.Range` is a nondeterministic valid index.
- Audio, `Debug.Log*`, UI `Text` updates and animator triggers are side effects only. The eagle sound is counted. Everything else is dropped.
- `PlayerManager.Die` loads the game-over scene; the model only counts the calls.
- Unity calls `Update` only on enabled components. That dispatch is not modelled, so nothing here proves that a disabled `PathFollower` stops advancing.
- `PlayerMovement.OnTriggerEnter` and `RespawnPlayer` are left out: they look up a respawn manager with `FindObjectOfType` and only move the transform.
- A missing `player` reference on a bird makes `Start` throw at `player.GetComponent<SafeZone>()` (BirdEnemy.cs line 30) and `Update` throw on the player's position. Only the resulting missing `SafeZone` is modelled, as an `Update` that changes nothing.
- Which `SafeZone` a bird reads is not tied to the zone the player enters. The bird takes the `SafeZone` component on the player object (BirdEnemy.cs line 30), while the flag is set on the zone object's own component when the Player enters its trigger (SafeZone.cs lines 9-11). In a scene where those are different components the bird sees a flag that stays false, or none at all so that `Update` throws every frame. The model takes the bird's `SafeZone` as a constructor argument and so also admits wiring the zone's own component to the bird.
- Main_Menu.cs (scene loading and quit), SceneManagers/TestLevelManager.cs (empty scene-name branches, an unused counter) and TimeTravel.cs (a float clock) are not part of this model.
- An object pooled by one manager and touched through another is not represented. A touched object is either an entry of this manager's pool or an `Unpooled` object whose active flag is not tracked.
- Collectibles.OneInPlayPreserved: it assumes that trigger contacts come only from active pool entries. The engine reports contacts only for active objects, but a scene could hold other Collectibles-tagged objects.
- Collectibles.Collect: `collectibleCount` is an unbounded integer. The C# `int` would wrap after 2^31 - 1 pick-ups, which the model does not capture.
- Collectibles.CollectibleManager.CollectItem: the same unbounded `collectibleCount`.
- BirdChase.ChaseUpdate: distances are reals, so NaN and other float comparison effects are not modelled.

## Findings

| source | as written | input that shows it | evidently intended | confidence | as-written member | corrected member |
|---|---|---|---|---|---|---|
| Assets/Scripts/PlayerManager.cs:33-34 | `currentHealth += amount` wraps around in 32-bit arithmetic before the clamp | currentHealth 100, maxHealth 100, `Heal(2147483647)` leaves health 0 | healing saturates at `maxHealth`, leaving 100 | low: not executed, and no script in the repository calls `Heal` | Health.HealOverflowEmptiesHealth | Health.HealNeverLowers |
