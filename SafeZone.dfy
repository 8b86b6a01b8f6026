/**
 * A safe-zone trigger region. It tracks whether the player is inside, and a
 * player who enters while carrying a collectible drops it off there.
 */
module SafeZones {
  import opened Pools
  import opened Collectibles

  const PlayerTag: string := "Player"

  /**
   * Entering the zone: the new `isPlayerSafe` flag and the new state of the
   * entering object's collectible manager, if it has one.
   */
  function Enter(safe: bool, s: CarryState, n: nat, tag: string): (r: (bool, CarryState))
    requires CarryInv(s, n)
    ensures tag == PlayerTag ==> r.0 && !r.1.carrying
    ensures tag != PlayerTag ==> r == (safe, s)
    ensures !s.carrying ==> r.1 == s
    ensures CarryInv(r.1, n) && r.1.collectibleCount == s.collectibleCount
  {
    if tag == PlayerTag then
      (true, if s.carrying then Drop(s, n) else s)
    else (safe, s)
  }

  /** Leaving the zone. */
  function Exit(safe: bool, tag: string): (r: bool)
    ensures r <==> safe && tag != PlayerTag
  {
    if tag == PlayerTag then false else safe
  }

  /** Entering twice in a row is the same as entering once, flag and carried collectible alike. */
  lemma EnterIdempotent(safe: bool, s: CarryState, n: nat, tag: string)
    requires CarryInv(s, n)
    ensures var once := Enter(safe, s, n, tag);
      Enter(once.0, once.1, n, tag) == once
  {
  }

  /** Leaving twice in a row is the same as leaving once. */
  lemma ExitIdempotent(safe: bool, tag: string)
    ensures Exit(Exit(safe, tag), tag) == Exit(safe, tag)
  {
  }

  /** Entering the zone keeps exactly one collectible in play. */
  lemma EnterKeepsOneInPlay(safe: bool, s: CarryState, n: nat, tag: string)
    requires n > 0 && CarryInv(s, n) && OneInPlay(s)
    ensures OneInPlay(Enter(safe, s, n, tag).1)
  {
    if tag == PlayerTag && s.carrying {
      DropKeepsOneInPlay(s, n);
    }
  }

  class SafeZone {
    var isPlayerSafe: bool

    constructor ()
      ensures !isPlayerSafe
    {
      isPlayerSafe := false;
    }

    /** A collider with tag `tag` enters; `manager` is its `CollectibleManager` component, if any. */
    method OnTriggerEnter(tag: string, manager: CollectibleManager?)
      requires manager != null ==> manager.Valid()
      modifies this, if manager != null then manager.CarryRepr() else {}
      ensures manager != null ==> manager.Valid()
      ensures manager != null ==>
        (isPlayerSafe, manager.State()) == Enter(old(isPlayerSafe), old(manager.State()), manager.spawnPointCount, tag)
      ensures manager == null ==> isPlayerSafe == (tag == PlayerTag || old(isPlayerSafe))
    {
      if tag == PlayerTag {
        isPlayerSafe := true;
        if manager != null && manager.IsCarryingCollectible() {
          manager.DropCollectible();
        }
      }
    }

    /** A collider with tag `tag` leaves. */
    method OnTriggerExit(tag: string)
      modifies this
      ensures isPlayerSafe == Exit(old(isPlayerSafe), tag)
    {
      if tag == PlayerTag {
        isPlayerSafe := false;
      }
    }
  }
}
