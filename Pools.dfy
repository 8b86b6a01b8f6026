/**
 * Object pools as the scripts see them: a list of pre-instantiated game
 * objects of which only the `activeInHierarchy` flag matters. Both the bird
 * pool and the collectible pool are searched front to back for the first
 * inactive entry.
 */
module Pools {
  import opened Runtime

  /** The position of the first inactive entry in list order, or None when every entry is active. */
  function FirstInactive(pool: seq<bool>): (r: Option<nat>)
    ensures r.Some? ==> r.value < |pool| && !pool[r.value]
    ensures r.Some? ==> forall j :: 0 <= j < r.value ==> pool[j]
    ensures r.None? <==> forall j :: 0 <= j < |pool| ==> pool[j]
  {
    if |pool| == 0 then None
    else if !pool[0] then Some(0)
    else match FirstInactive(pool[1..])
      case None => None
      case Some(i) => Some(i + 1)
  }

  /** The number of active entries. */
  function ActiveCount(pool: seq<bool>): (n: nat)
    ensures n <= |pool|
  {
    if |pool| == 0 then 0 else (if pool[0] then 1 else 0) + ActiveCount(pool[1..])
  }

  /** A pool in which every entry was deactivated right after instantiation. */
  function AllInactive(n: nat): (pool: seq<bool>)
    ensures |pool| == n
    ensures forall j :: 0 <= j < n ==> !pool[j]
  {
    seq(n, _ => false)
  }

  lemma {:induction false} AllInactiveCount(n: nat)
    ensures ActiveCount(AllInactive(n)) == 0
  {
    if n > 0 {
      assert AllInactive(n)[1..] == AllInactive(n - 1);
      AllInactiveCount(n - 1);
    }
  }

  /** Switching one inactive entry on raises the active count by exactly one. */
  lemma {:induction false} ActivateCount(pool: seq<bool>, i: nat)
    requires i < |pool| && !pool[i]
    ensures ActiveCount(pool[i := true]) == ActiveCount(pool) + 1
  {
    if i == 0 {
      assert pool[i := true][1..] == pool[1..];
    } else {
      assert pool[i := true][1..] == pool[1..][i - 1 := true];
      ActivateCount(pool[1..], i - 1);
    }
  }

  /** Switching one active entry off lowers the active count by exactly one. */
  lemma {:induction false} DeactivateCount(pool: seq<bool>, i: nat)
    requires i < |pool| && pool[i]
    ensures ActiveCount(pool[i := false]) == ActiveCount(pool) - 1
  {
    if i == 0 {
      assert pool[i := false][1..] == pool[1..];
    } else {
      assert pool[i := false][1..] == pool[1..][i - 1 := false];
      DeactivateCount(pool[1..], i - 1);
    }
  }

  /** The search finds nothing exactly when every entry is counted as active. */
  lemma {:induction false} ExhaustedIffFull(pool: seq<bool>)
    ensures FirstInactive(pool).None? <==> ActiveCount(pool) == |pool|
  {
    if |pool| > 0 {
      ExhaustedIffFull(pool[1..]);
    }
  }
}
