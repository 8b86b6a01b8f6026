/**
 * The bird spawner: a fixed pool of bird objects, filled once and all
 * inactive, from which birds are switched on at random spawn points. Each
 * new score milestone (a multiple of 5 above the last one acted on) spawns
 * `birdsToSpawn` birds and then raises that count by one.
 */
module BirdSpawning {
  import opened Runtime
  import opened Pools

  /** What one `SpawnBird` call ends in. */
  datatype SpawnOutcome =
    | Activated(bird: nat)   // the bird at this pool position was placed and switched on
    | PoolExhausted          // every bird is active: a warning, nothing changes
    | SpawnPointMissing      // an inactive bird exists but `spawnPoints` is empty: the index throws

  /** The spawner's bookkeeping: the active flag of every pooled bird and the milestone counters. */
  datatype SpawnerState = SpawnerState(pool: seq<bool>, lastScoreChecked: int, birdsToSpawn: nat)

  /** The state right after `Start` fills a pool of `poolSize` birds. */
  function InitialSpawner(poolSize: nat): (s: SpawnerState)
    ensures |s.pool| == poolSize && ActiveCount(s.pool) == 0
  {
    AllInactiveCount(poolSize);
    SpawnerState(AllInactive(poolSize), 0, 1)
  }

  /** The guard of `CheckAndSpawnBird`. C#'s `%` truncates, but a zero remainder means the same under both conventions. */
  predicate NewMilestone(score: int, lastScoreChecked: int) {
    score % 5 == 0 && score > lastScoreChecked
  }

  /** What the spawner keeps true between calls. */
  ghost predicate SpawnerInv(s: SpawnerState) {
    && s.birdsToSpawn >= 1
    && s.lastScoreChecked >= 0
    && s.lastScoreChecked % 5 == 0
    && s.birdsToSpawn <= s.lastScoreChecked / 5 + 1
  }

  function Min(a: int, b: int): int {
    if a <= b then a else b
  }

  /** One `SpawnBird` call on the pool's active flags. */
  function SpawnStep(pool: seq<bool>, spawnPointCount: nat): (r: (seq<bool>, SpawnOutcome))
    ensures |r.0| == |pool|
    ensures forall j :: 0 <= j < |pool| && pool[j] ==> r.0[j]
    ensures ActiveCount(r.0) == ActiveCount(pool) + (if r.1.Activated? then 1 else 0)
    ensures r.1.Activated? ==> r.1.bird < |pool| && !pool[r.1.bird] && r.0[r.1.bird]
    ensures r.1.Activated? ==> forall j :: 0 <= j < r.1.bird ==> pool[j]
    ensures r.1.PoolExhausted? <==> (forall j :: 0 <= j < |pool| ==> pool[j])
    ensures r.1.SpawnPointMissing? <==> FirstInactive(pool).Some? && spawnPointCount == 0
    ensures !r.1.Activated? ==> r.0 == pool
  {
    match FirstInactive(pool)
    case None => (pool, PoolExhausted)
    case Some(i) =>
      if spawnPointCount == 0 then (pool, SpawnPointMissing)
      else
        ActivateCount(pool, i);
        (pool[i := true], Activated(i))
  }

  /**
   * `count` consecutive `SpawnBird` calls, stopped by the first exception.
   * The second component says whether an exception was thrown.
   */
  function SpawnRepeat(pool: seq<bool>, count: nat, spawnPointCount: nat): (r: (seq<bool>, bool))
    ensures |r.0| == |pool|
    ensures forall j :: 0 <= j < |pool| && pool[j] ==> r.0[j]
    ensures spawnPointCount == 0 ==> r.0 == pool
    ensures r.1 <==> count > 0 && spawnPointCount == 0 && FirstInactive(pool).Some?
    decreases count
  {
    if count == 0 then (pool, false)
    else
      var (next, outcome) := SpawnStep(pool, spawnPointCount);
      if outcome.SpawnPointMissing? then (pool, true)
      else SpawnRepeat(next, count - 1, spawnPointCount)
  }

  /** `CheckAndSpawnBird(score)`; the second component says whether a spawn threw. */
  function MilestoneStep(s: SpawnerState, score: int, spawnPointCount: nat): (r: (SpawnerState, bool))
    ensures !NewMilestone(score, s.lastScoreChecked) ==> r == (s, false)
    ensures NewMilestone(score, s.lastScoreChecked) ==>
      && r.0.lastScoreChecked == score
      && r.0.birdsToSpawn == (if r.1 then s.birdsToSpawn else s.birdsToSpawn + 1)
    ensures |r.0.pool| == |s.pool|
    ensures spawnPointCount > 0 ==> !r.1
  {
    if NewMilestone(score, s.lastScoreChecked) then
      var (pool, thrown) := SpawnRepeat(s.pool, s.birdsToSpawn, spawnPointCount);
      (SpawnerState(pool, score, if thrown then s.birdsToSpawn else s.birdsToSpawn + 1), thrown)
    else (s, false)
  }

  /** Repeated spawns switch on as many birds as asked for, or as many as are left. */
  lemma {:induction false} SpawnRepeatCount(pool: seq<bool>, count: nat, spawnPointCount: nat)
    requires spawnPointCount > 0
    decreases count
    ensures ActiveCount(SpawnRepeat(pool, count, spawnPointCount).0)
            == ActiveCount(pool) + Min(count, |pool| - ActiveCount(pool))
  {
    if count > 0 {
      var (next, outcome) := SpawnStep(pool, spawnPointCount);
      SpawnRepeatCount(next, count - 1, spawnPointCount);
      if outcome.PoolExhausted? {
        ExhaustedIffFull(pool);
      } else {
        assert outcome.Activated?;
      }
    }
  }

  /** A milestone spawns min(old `birdsToSpawn`, inactive birds) new birds; a non-milestone spawns none. */
  lemma MilestoneSpawnCount(s: SpawnerState, score: int, spawnPointCount: nat)
    requires spawnPointCount > 0
    ensures ActiveCount(MilestoneStep(s, score, spawnPointCount).0.pool)
            == ActiveCount(s.pool)
               + (if NewMilestone(score, s.lastScoreChecked)
                  then Min(s.birdsToSpawn, |s.pool| - ActiveCount(s.pool)) else 0)
  {
    SpawnRepeatCount(s.pool, s.birdsToSpawn, spawnPointCount);
  }

  /** `CheckAndSpawnBird` keeps the counters consistent; counters and active birds never go down. */
  lemma MilestonePreserves(s: SpawnerState, score: int, spawnPointCount: nat)
    requires SpawnerInv(s)
    ensures var s' := MilestoneStep(s, score, spawnPointCount).0;
      && SpawnerInv(s')
      && s'.lastScoreChecked >= s.lastScoreChecked
      && s'.birdsToSpawn >= s.birdsToSpawn
      && forall j :: 0 <= j < |s.pool| && s.pool[j] ==> s'.pool[j]
  {
  }

  /** A repeated call with the same score changes nothing and throws nothing. */
  lemma MilestoneIdempotent(s: SpawnerState, score: int, spawnPointCount: nat)
    ensures var s' := MilestoneStep(s, score, spawnPointCount).0;
      MilestoneStep(s', score, spawnPointCount) == (s', false)
  {
  }

  /** The number of birds spawned at milestones 5, 10, ..., 5k together: 1 + 2 + ... + k. */
  function Triangle(k: nat): nat {
    if k == 0 then 0 else Triangle(k - 1) + k
  }

  /** The spawner after score notifications 5, 10, ..., 5k, in that order. */
  function AfterMilestones(s: SpawnerState, k: nat, spawnPointCount: nat): SpawnerState {
    if k == 0 then s
    else MilestoneStep(AfterMilestones(s, k - 1, spawnPointCount), 5 * k, spawnPointCount).0
  }

  /** Escalation: the k-th milestone from a fresh pool spawns k birds while capacity lasts. */
  lemma {:induction false} Escalation(poolSize: nat, k: nat, spawnPointCount: nat)
    requires spawnPointCount > 0
    ensures var s := AfterMilestones(InitialSpawner(poolSize), k, spawnPointCount);
      && s.lastScoreChecked == 5 * k
      && s.birdsToSpawn == k + 1
      && |s.pool| == poolSize
      && ActiveCount(s.pool) == Min(Triangle(k), poolSize)
  {
    if k > 0 {
      Escalation(poolSize, k - 1, spawnPointCount);
      var prev := AfterMilestones(InitialSpawner(poolSize), k - 1, spawnPointCount);
      assert NewMilestone(5 * k, prev.lastScoreChecked);
      MilestoneSpawnCount(prev, 5 * k, spawnPointCount);
    }
  }

  /** Milestones 5, 10 and 15 spawn 1, 2 and 3 birds when the pool holds at least 6. */
  lemma EscalationFiveTenFifteen(poolSize: nat, spawnPointCount: nat)
    requires poolSize >= 6 && spawnPointCount > 0
    ensures ActiveCount(AfterMilestones(InitialSpawner(poolSize), 1, spawnPointCount).pool) == 1
    ensures ActiveCount(AfterMilestones(InitialSpawner(poolSize), 2, spawnPointCount).pool) == 1 + 2
    ensures ActiveCount(AfterMilestones(InitialSpawner(poolSize), 3, spawnPointCount).pool) == 1 + 2 + 3
  {
    Escalation(poolSize, 1, spawnPointCount);
    Escalation(poolSize, 2, spawnPointCount);
    Escalation(poolSize, 3, spawnPointCount);
  }

  /** The spawner after score notifications 1, 2, ..., m: the score climbing one pickup at a time. */
  function AfterScores(s: SpawnerState, m: nat, spawnPointCount: nat): SpawnerState {
    if m == 0 then s
    else MilestoneStep(AfterScores(s, m - 1, spawnPointCount), m, spawnPointCount).0
  }

  /** While the score climbs by one, only the multiples of 5 act: the spawner is where milestones 5, ..., 5(m / 5) leave it. */
  lemma {:induction false} ScoresActOnlyAtMilestones(poolSize: nat, m: nat, spawnPointCount: nat)
    requires spawnPointCount > 0
    ensures AfterScores(InitialSpawner(poolSize), m, spawnPointCount)
            == AfterMilestones(InitialSpawner(poolSize), m / 5, spawnPointCount)
  {
    if m > 0 {
      ScoresActOnlyAtMilestones(poolSize, m - 1, spawnPointCount);
      Escalation(poolSize, (m - 1) / 5, spawnPointCount);
      if m % 5 == 0 {
        assert m / 5 == (m - 1) / 5 + 1;
        assert m == 5 * (m / 5);
      } else {
        assert m / 5 == (m - 1) / 5;
      }
    }
  }

  class BirdSpawner {
    /** `spawnPoints.Length`. */
    const spawnPointCount: nat
    /** The `activeInHierarchy` flag of each pooled bird. */
    const birdPool: array<bool>
    /** The spawn point each bird was last placed at; None while it is still where it was instantiated. */
    const spawnPointOf: array<Option<nat>>
    var lastScoreChecked: int
    var birdsToSpawn: nat

    ghost function Repr(): set<object> {
      {this, birdPool, spawnPointOf}
    }

    ghost function State(): SpawnerState
      reads this, birdPool
    {
      SpawnerState(birdPool[..], lastScoreChecked, birdsToSpawn)
    }

    ghost predicate Valid()
      reads Repr()
    {
      && birdPool.Length == spawnPointOf.Length
      && SpawnerInv(State())
      && forall i :: 0 <= i < birdPool.Length && birdPool[i] ==>
           spawnPointOf[i].Some? && spawnPointOf[i].value < spawnPointCount
    }

    /** Field initialisers and `Start`: instantiate `poolSize` birds, each deactivated. */
    constructor Start(poolSize: int, spawnPointCount: nat)
      ensures Valid() && fresh(birdPool) && fresh(spawnPointOf)
      ensures this.spawnPointCount == spawnPointCount
      ensures State() == InitialSpawner(if poolSize < 0 then 0 else poolSize)
      ensures forall i :: 0 <= i < spawnPointOf.Length ==> spawnPointOf[i].None?
    {
      var n := if poolSize < 0 then 0 else poolSize;
      var pool := new bool[n];
      var placed := new Option<nat>[n];
      for i := 0 to n
        invariant forall j :: 0 <= j < i ==> !pool[j] && placed[j].None?
      {
        pool[i] := false;
        placed[i] := None;
      }
      this.spawnPointCount := spawnPointCount;
      birdPool := pool;
      spawnPointOf := placed;
      lastScoreChecked := 0;
      birdsToSpawn := 1;
      new;
      assert birdPool[..] == AllInactive(n);
    }

    /** The first inactive bird in list order, or None (null) when every bird is active. */
    method GetPooledBird() returns (bird: Option<nat>)
      ensures bird.Some? ==> bird.value < birdPool.Length && !birdPool[bird.value]
      ensures bird.Some? ==> forall j :: 0 <= j < bird.value ==> birdPool[j]
      ensures bird.None? ==> forall j :: 0 <= j < birdPool.Length ==> birdPool[j]
      ensures bird == FirstInactive(birdPool[..])
    {
      var i := 0;
      while i < birdPool.Length
        invariant 0 <= i <= birdPool.Length
        invariant forall j :: 0 <= j < i ==> birdPool[j]
      {
        if !birdPool[i] {
          return Some(i);
        }
        i := i + 1;
      }
      return None;
    }

    /** Place the first inactive bird at a random spawn point and switch it on. */
    method SpawnBird() returns (outcome: SpawnOutcome)
      requires Valid()
      modifies birdPool, spawnPointOf
      ensures Valid()
      ensures (birdPool[..], outcome) == SpawnStep(old(birdPool[..]), spawnPointCount)
      ensures forall i :: 0 <= i < spawnPointOf.Length && outcome != Activated(i) ==>
                spawnPointOf[i] == old(spawnPointOf[i])
    {
      var bird := GetPooledBird();
      if bird.None? {
        return PoolExhausted;
      }
      if spawnPointCount == 0 {
        // spawnPoints[Random.Range(0, 0)] indexes an empty array and throws
        return SpawnPointMissing;
      }
      var point :| 0 <= point < spawnPointCount;   // Random.Range(0, spawnPoints.Length)
      spawnPointOf[bird.value] := Some(point);
      birdPool[bird.value] := true;
      outcome := Activated(bird.value);
    }

    /** Spawn `birdsToSpawn` birds on a new milestone; `thrown` reports an exception out of `SpawnBird`. */
    method CheckAndSpawnBird(score: int) returns (thrown: bool)
      requires Valid()
      modifies this, birdPool, spawnPointOf
      ensures Valid()
      ensures (State(), thrown) == MilestoneStep(old(State()), score, spawnPointCount)
      ensures forall i :: 0 <= i < birdPool.Length && old(birdPool[i]) ==>
                spawnPointOf[i] == old(spawnPointOf[i])
    {
      thrown := false;
      if NewMilestone(score, lastScoreChecked) {
        lastScoreChecked := score;
        var i := 0;
        while i < birdsToSpawn
          invariant 0 <= i <= birdsToSpawn
          invariant Valid()
          invariant lastScoreChecked == score && birdsToSpawn == old(birdsToSpawn)
          invariant SpawnRepeat(birdPool[..], birdsToSpawn - i, spawnPointCount)
                    == SpawnRepeat(old(birdPool[..]), birdsToSpawn, spawnPointCount)
          invariant forall j :: 0 <= j < birdPool.Length && old(birdPool[j]) ==>
                      birdPool[j] && spawnPointOf[j] == old(spawnPointOf[j])
        {
          var outcome := SpawnBird();
          if outcome.SpawnPointMissing? {
            return true;
          }
          i := i + 1;
        }
        birdsToSpawn := birdsToSpawn + 1;
      }
    }
  }
}
