/**
 * Waypoint patrol: an object walks towards its current waypoint and, on
 * arriving, turns to the next one, wrapping around at the end of the path.
 * Arrival (being within 0.1 units after the step) is an input here.
 */
module PathFollowing {

  /** The waypoint index after one `Update` on a path of `waypointCount` waypoints. */
  function NextWaypoint(index: int, waypointCount: nat, arrived: bool): (r: int)
    ensures waypointCount > 0 && 0 <= index < waypointCount ==> 0 <= r < waypointCount
    ensures waypointCount == 0 || !arrived ==> r == index
    ensures waypointCount > 0 && arrived && 0 <= index < waypointCount - 1 ==> r == index + 1
    ensures waypointCount > 0 && arrived && index == waypointCount - 1 ==> r == 0
  {
    if waypointCount == 0 then index   // "No waypoints assigned": Update returns early
    else if arrived then (index + 1) % waypointCount
    else index
  }

  /** The index after `k` updates that each arrive. */
  function Arrivals(index: int, waypointCount: nat, k: nat): int {
    if k == 0 then index else NextWaypoint(Arrivals(index, waypointCount, k - 1), waypointCount, true)
  }

  /** Before the end of the path, k arrivals move the index on by k. */
  lemma {:induction false} ArrivalsAlongPath(index: int, waypointCount: nat, k: nat)
    requires 0 <= index && index + k < waypointCount
    ensures Arrivals(index, waypointCount, k) == index + k
  {
    if k > 0 {
      ArrivalsAlongPath(index, waypointCount, k - 1);
    }
  }

  /** Arrivals compose: a + b arrivals are a arrivals followed by b more. */
  lemma {:induction false} ArrivalsCompose(index: int, waypointCount: nat, a: nat, b: nat)
    ensures Arrivals(index, waypointCount, a + b) == Arrivals(Arrivals(index, waypointCount, a), waypointCount, b)
  {
    if b > 0 {
      ArrivalsCompose(index, waypointCount, a, b - 1);
    }
  }

  /** After as many arrivals as there are waypoints the follower is back at its starting waypoint. */
  lemma ArrivalsCycle(index: int, waypointCount: nat)
    requires 0 <= index < waypointCount
    ensures Arrivals(index, waypointCount, waypointCount) == index
  {
    var toEnd := waypointCount - 1 - index;
    ArrivalsAlongPath(index, waypointCount, toEnd);
    ArrivalsCompose(index, waypointCount, toEnd, 1);
    assert Arrivals(index, waypointCount, toEnd + 1) == 0;
    ArrivalsAlongPath(0, waypointCount, index);
    ArrivalsCompose(index, waypointCount, toEnd + 1, index);
  }

  class PathFollower {
    /** `waypoints.Length`. */
    const waypointCount: nat
    var currentWaypointIndex: int
    /** The component's `enabled` flag; a chasing bird switches it off. */
    var enabled: bool

    ghost predicate Valid()
      reads this
    {
      if waypointCount == 0 then currentWaypointIndex == 0
      else 0 <= currentWaypointIndex < waypointCount
    }

    constructor (waypointCount: nat)
      ensures Valid() && enabled && currentWaypointIndex == 0
      ensures this.waypointCount == waypointCount
    {
      this.waypointCount := waypointCount;
      currentWaypointIndex := 0;
      enabled := true;
    }

    /** One frame; `arrived` is whether the step towards the current waypoint ended within reach of it. */
    method Update(arrived: bool)
      requires Valid()
      modifies this
      ensures Valid() && enabled == old(enabled)
      ensures currentWaypointIndex == NextWaypoint(old(currentWaypointIndex), waypointCount, arrived)
    {
      if waypointCount == 0 {
        return;
      }
      MoveAlongPath(arrived);
    }

    method MoveAlongPath(arrived: bool)
      requires Valid() && waypointCount > 0
      modifies this
      ensures Valid() && enabled == old(enabled)
      ensures currentWaypointIndex == NextWaypoint(old(currentWaypointIndex), waypointCount, arrived)
    {
      // the MoveTowards step towards waypoints[currentWaypointIndex] is not modelled
      if arrived {
        currentWaypointIndex := (currentWaypointIndex + 1) % waypointCount;
      }
    }
  }
}
