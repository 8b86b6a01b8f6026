/**
 * The collectible carry loop on the player: one pooled collectible per spawn
 * point, one of them shown at a time. Touching a collectible picks it up
 * (unless one is already carried), raises the score and tells the bird
 * spawner; dropping it off shows the next pooled collectible at the next
 * spawn point, round robin.
 */
module Collectibles {
  import opened Runtime
  import opened Pools
  import opened BirdSpawning

  const CollectiblesTag: string := "Collectibles"

  /** The game object a trigger contact reports: an entry of this manager's pool, or some other tagged object. */
  datatype Pickup = PoolEntry(slot: nat) | Unpooled

  /**
   * The manager's bookkeeping: score, carry flag, the carried object, the
   * active flag and spawn point of every pooled collectible, and the index of
   * the spawn point the next collectible will appear at.
   */
  datatype CarryState = CarryState(
    collectibleCount: int,
    carrying: bool,
    current: Option<Pickup>,
    pool: seq<bool>,
    placedAt: seq<int>,
    spawnIndex: int)

  /** What the manager keeps true, for a scene with `n` spawn points. */
  ghost predicate CarryInv(s: CarryState, n: nat) {
    && |s.pool| == n && |s.placedAt| == n
    && (if n == 0 then s.spawnIndex == 0 else 0 <= s.spawnIndex < n)
    && (forall i :: 0 <= i < n ==> 0 <= s.placedAt[i] < n)
    && (s.carrying <==> s.current.Some?)
    && (s.current.Some? && s.current.value.PoolEntry? ==>
          s.current.value.slot < n && !s.pool[s.current.value.slot])
  }

  /** Exactly one collectible is in play: either carried or shown in the pool. */
  ghost predicate OneInPlay(s: CarryState) {
    ActiveCount(s.pool) + (if s.carrying then 1 else 0) == 1
  }

  /** `ActivateNextCollectible`: show the first hidden pool entry at the current spawn point. */
  function ActivateNext(s: CarryState, n: nat): (r: CarryState)
    requires |s.pool| == n && |s.placedAt| == n
    requires if n == 0 then s.spawnIndex == 0 else 0 <= s.spawnIndex < n
    ensures r.collectibleCount == s.collectibleCount && r.carrying == s.carrying && r.current == s.current
    ensures |r.pool| == n && |r.placedAt| == n
    ensures if n == 0 then r.spawnIndex == 0 else 0 <= r.spawnIndex < n
    ensures FirstInactive(s.pool).None? ==> r == s
    ensures FirstInactive(s.pool).Some? ==>
      var i := FirstInactive(s.pool).value;
      && r.pool == s.pool[i := true]
      && r.placedAt == s.placedAt[i := s.spawnIndex]
      && r.spawnIndex == (s.spawnIndex + 1) % n
    ensures ActiveCount(r.pool) == ActiveCount(s.pool) + (if FirstInactive(s.pool).Some? then 1 else 0)
  {
    match FirstInactive(s.pool)
    case None => s
    case Some(i) =>
      ActivateCount(s.pool, i);
      s.(pool := s.pool[i := true],
         placedAt := s.placedAt[i := s.spawnIndex],
         spawnIndex := (s.spawnIndex + 1) % n)
  }

  /** The pool as `Start` instantiates it: entry `i` hidden at spawn point `i`. */
  function Instantiated(n: nat): (s: CarryState)
    ensures CarryInv(s, n) && ActiveCount(s.pool) == 0
  {
    AllInactiveCount(n);
    CarryState(0, false, None, AllInactive(n), seq(n, i => i), 0)
  }

  /** `Start`: instantiate the pool, then show the first collectible. */
  function StartCarry(n: nat): (s: CarryState)
    ensures CarryInv(s, n)
    ensures s.collectibleCount == 0 && !s.carrying
    ensures n > 0 ==> ActiveCount(s.pool) == 1 && s.pool[0] && s.placedAt[0] == 0 && s.spawnIndex == 1 % n
    ensures n == 0 ==> s.pool == []
  {
    ActivateNext(Instantiated(n), n)
  }

  /** `CollectItem`: hide the touched object, carry it, count it. */
  function Collect(s: CarryState, p: Pickup): (r: CarryState)
    requires p.PoolEntry? ==> p.slot < |s.pool|
    ensures r.collectibleCount == s.collectibleCount + 1
    ensures r.carrying && r.current == Some(p)
    ensures |r.pool| == |s.pool| && r.placedAt == s.placedAt && r.spawnIndex == s.spawnIndex
    ensures forall i :: 0 <= i < |s.pool| ==> r.pool[i] == (s.pool[i] && p != PoolEntry(i))
  {
    s.(pool := if p.PoolEntry? then s.pool[p.slot := false] else s.pool,
       current := Some(p),
       collectibleCount := s.collectibleCount + 1,
       carrying := true)
  }

  /** Whether a trigger contact with a `tag`-tagged object picks it up. */
  predicate PicksUp(s: CarryState, tag: string) {
    !s.carrying && tag == CollectiblesTag
  }

  /** `OnTriggerEnter` of the manager. */
  function Touch(s: CarryState, tag: string, p: Pickup): (r: CarryState)
    requires p.PoolEntry? ==> p.slot < |s.pool|
    ensures PicksUp(s, tag) ==> r == Collect(s, p)
    ensures !PicksUp(s, tag) ==> r == s
  {
    if PicksUp(s, tag) then Collect(s, p) else s
  }

  /** `DropCollectible`: only while carrying an object; then show the next collectible. */
  function Drop(s: CarryState, n: nat): (r: CarryState)
    requires CarryInv(s, n)
    ensures CarryInv(r, n)
    ensures !r.carrying && r.current.None?
    ensures r.collectibleCount == s.collectibleCount
    ensures !s.carrying ==> r == s
  {
    if s.carrying && s.current.Some? then
      var hidden := if s.current.value.PoolEntry? then s.pool[s.current.value.slot := false] else s.pool;
      ActivateNext(s.(pool := hidden, current := None, carrying := false), n)
    else s
  }

  /** A contact while already carrying changes nothing, whatever the tag. */
  lemma TouchWhileCarrying(s: CarryState, tag: string, p: Pickup)
    requires s.carrying && (p.PoolEntry? ==> p.slot < |s.pool|)
    ensures Touch(s, tag, p) == s
  {
  }

  /** A trigger contact keeps the manager's invariant. */
  lemma TouchPreservesInv(s: CarryState, n: nat, tag: string, p: Pickup)
    requires CarryInv(s, n) && (p.PoolEntry? ==> p.slot < n)
    ensures CarryInv(Touch(s, tag, p), n)
  {
  }

  /** The score never decreases: a contact adds at most one, a drop-off leaves it alone. */
  lemma CountNeverDecreases(s: CarryState, n: nat, tag: string, p: Pickup)
    requires CarryInv(s, n) && (p.PoolEntry? ==> p.slot < n)
    ensures s.collectibleCount <= Touch(s, tag, p).collectibleCount <= s.collectibleCount + 1
    ensures Drop(s, n).collectibleCount == s.collectibleCount
  {
  }

  /** Dropping off an object that was carried shows exactly one hidden collectible again, if any is hidden. */
  lemma DropShowsNext(s: CarryState, n: nat)
    requires CarryInv(s, n) && s.carrying
    requires ActiveCount(s.pool) < n
    ensures ActiveCount(Drop(s, n).pool) == ActiveCount(s.pool) + 1
  {
    var hidden := if s.current.value.PoolEntry? then s.pool[s.current.value.slot := false] else s.pool;
    assert hidden == s.pool;
    ExhaustedIffFull(s.pool);
  }

  /**
   * Picking up keeps exactly one collectible in play: the shown one becomes
   * the carried one. Trigger contacts come only from active objects, here
   * taken to be entries of the pool.
   */
  lemma OneInPlayPreserved(s: CarryState, n: nat, tag: string, slot: nat)
    requires n > 0 && CarryInv(s, n) && OneInPlay(s)
    requires slot < n && s.pool[slot]
    ensures OneInPlay(Touch(s, tag, PoolEntry(slot)))
  {
    if PicksUp(s, tag) {
      assert Collect(s, PoolEntry(slot)).pool == s.pool[slot := false];
      DeactivateCount(s.pool, slot);
    }
  }

  /** Dropping off keeps exactly one collectible in play: the carried one is replaced by a shown one. */
  lemma DropKeepsOneInPlay(s: CarryState, n: nat)
    requires n > 0 && CarryInv(s, n) && OneInPlay(s) && s.carrying
    ensures OneInPlay(Drop(s, n))
    ensures ActiveCount(Drop(s, n).pool) == 1
  {
    assert ActiveCount(s.pool) == 0;
    DropShowsNext(s, n);
  }

  lemma StartOneInPlay(n: nat)
    requires n > 0
    ensures OneInPlay(StartCarry(n))
  {
  }

  class CollectibleManager {
    var collectibleCount: int
    var isCarryingCollectible: bool
    var currentCollectible: Option<Pickup>
    var currentSpawnIndex: int
    /** `spawnPoints.Length`. */
    const spawnPointCount: nat
    /** The `activeInHierarchy` flag of each pooled collectible. */
    const collectiblePool: array<bool>
    /** The spawn point each pooled collectible was last placed at. */
    const placedAt: array<int>
    const birdSpawner: BirdSpawner?

    ghost function CarryRepr(): set<object> {
      {this, collectiblePool, placedAt}
    }

    ghost function Repr(): set<object> {
      CarryRepr() + (if birdSpawner == null then {} else birdSpawner.Repr())
    }

    ghost function State(): CarryState
      reads this, collectiblePool, placedAt
    {
      CarryState(collectibleCount, isCarryingCollectible, currentCollectible,
                 collectiblePool[..], placedAt[..], currentSpawnIndex)
    }

    ghost predicate Valid()
      reads Repr()
    {
      && CarryInv(State(), spawnPointCount)
      && (birdSpawner != null ==> birdSpawner.Valid() && birdSpawner.birdPool != collectiblePool)
    }

    /** Field initialisers and `Start`. */
    constructor Start(spawnPointCount: nat, birdSpawner: BirdSpawner?)
      requires birdSpawner != null ==> birdSpawner.Valid()
      ensures Valid() && fresh(collectiblePool) && fresh(placedAt)
      ensures this.spawnPointCount == spawnPointCount && this.birdSpawner == birdSpawner
      ensures State() == StartCarry(spawnPointCount)
    {
      var n := spawnPointCount;
      var pool := new bool[n];
      var placed := new int[n];
      for i := 0 to n
        invariant forall j :: 0 <= j < i ==> !pool[j] && placed[j] == j
      {
        pool[i] := false;   // Instantiate at spawnPoints[i], then SetActive(false)
        placed[i] := i;
      }
      collectibleCount := 0;
      isCarryingCollectible := false;
      currentCollectible := None;
      currentSpawnIndex := 0;
      this.spawnPointCount := n;
      collectiblePool := pool;
      placedAt := placed;
      this.birdSpawner := birdSpawner;
      new;
      assert State() == Instantiated(n);
      ActivateNextCollectible();
    }

    /** Whether the player holds a collectible. */
    function IsCarryingCollectible(): (carrying: bool)
      reads Repr()
      requires Valid()
      ensures carrying <==> currentCollectible.Some?
    {
      isCarryingCollectible
    }

    /** A trigger contact with a `tag`-tagged object. */
    method OnTriggerEnter(tag: string, other: Pickup)
      requires Valid() && (other.PoolEntry? ==> other.slot < collectiblePool.Length)
      modifies Repr()
      ensures Valid()
      ensures State() == Touch(old(State()), tag, other)
      ensures birdSpawner != null ==>
        birdSpawner.State() ==
          if PicksUp(old(State()), tag)
          then MilestoneStep(old(birdSpawner.State()), collectibleCount, birdSpawner.spawnPointCount).0
          else old(birdSpawner.State())
    {
      if !isCarryingCollectible && tag == CollectiblesTag {
        CollectItem(other);
      }
      // otherwise: "Already holding a collectible" is only logged
    }

    /** Pick up `collectible` and notify the spawner with the new count. */
    method CollectItem(collectible: Pickup)
      requires Valid() && (collectible.PoolEntry? ==> collectible.slot < collectiblePool.Length)
      modifies Repr()
      ensures Valid()
      ensures State() == Collect(old(State()), collectible)
      ensures birdSpawner != null ==>
        birdSpawner.State() ==
          MilestoneStep(old(birdSpawner.State()), collectibleCount, birdSpawner.spawnPointCount).0
    {
      if collectible.PoolEntry? {
        collectiblePool[collectible.slot] := false;
      }
      currentCollectible := Some(collectible);
      collectibleCount := collectibleCount + 1;
      isCarryingCollectible := true;
      if birdSpawner != null {
        var _ := birdSpawner.CheckAndSpawnBird(collectibleCount);
      }
    }

    /** Drop the carried collectible off and show the next one. */
    method DropCollectible()
      requires Valid()
      modifies CarryRepr()
      ensures Valid()
      ensures State() == Drop(old(State()), spawnPointCount)
    {
      if isCarryingCollectible && currentCollectible.Some? {
        if currentCollectible.value.PoolEntry? {
          collectiblePool[currentCollectible.value.slot] := false;
        }
        currentCollectible := None;
        isCarryingCollectible := false;
        ActivateNextCollectible();
      }
      // otherwise: "No collectible to drop." is only logged
    }

    /** Show the first hidden pooled collectible at the current spawn point and advance the index. */
    method ActivateNextCollectible()
      requires collectiblePool.Length == spawnPointCount && placedAt.Length == spawnPointCount
      requires if spawnPointCount == 0 then currentSpawnIndex == 0 else 0 <= currentSpawnIndex < spawnPointCount
      modifies this, collectiblePool, placedAt
      ensures State() == ActivateNext(old(State()), spawnPointCount)
    {
      var i := 0;
      while i < collectiblePool.Length
        invariant 0 <= i <= collectiblePool.Length
        invariant forall j :: 0 <= j < i ==> collectiblePool[j]
      {
        if !collectiblePool[i] {
          placedAt[i] := currentSpawnIndex;
          collectiblePool[i] := true;
          currentSpawnIndex := (currentSpawnIndex + 1) % spawnPointCount;
          return;
        }
        i := i + 1;
      }
      // "No hidden collectibles left in the pool!" is only logged
    }
  }
}
