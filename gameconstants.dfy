/** ChatGptRampart/src/gameConstants.js: the round length, the banner geometry and
    the wave-scaling formulas of the enemy fleet. */
module GameConstants {

  const RoundSeconds: int := 30
  const BannerH: int := 28
  const BannerSpeed: int := 140

  /** Boats in wave w. */
  function EnemyCountForWave(w: int): int
  {
    3 + w
  }

  /** Hit points of each boat: one plus the floor of w/2 (Dafny's `/` by a positive
      divisor is the floor, as `Math.floor` is in the source). */
  function EnemyHealthForWave(w: int): int
  {
    1 + w / 2
  }

  /** Seconds between two shots of a boat. */
  function EnemyShotIntervalForWave(w: int): real
  {
    var v := 2.5 - w as real * 0.1;
    if 1.0 < v then v else 1.0
  }

  function EnemyMoveSpeedForWave(w: int): int
  {
    22 + w * 3
  }

  function EnemyProjectileSpeedForWave(w: int): int
  {
    var v := 105 + w * 5;
    if 180 < v then 180 else v
  }

  /** Each wave has one more boat than the last; the first has four. */
  lemma EnemyCountGrows(w: int, v: int)
    requires w < v
    ensures EnemyCountForWave(w) < EnemyCountForWave(v)
    ensures EnemyCountForWave(v) - EnemyCountForWave(w) == v - w
    ensures EnemyCountForWave(1) == 4
  {
  }

  /** Boats always have at least one hit point, gain one every second wave, and have
      exactly one in wave 1. */
  lemma EnemyHealthBounds(w: int)
    requires w >= 0
    ensures EnemyHealthForWave(w) >= 1
    ensures EnemyHealthForWave(w + 2) == EnemyHealthForWave(w) + 1
    ensures EnemyHealthForWave(w) <= EnemyHealthForWave(w + 1)
    ensures EnemyHealthForWave(1) == 1
  {
  }

  /** The shot interval never drops below one second, never grows from one wave to
      a later one, is 2.4 s in wave 1 and reaches its floor at wave 15. */
  lemma ShotIntervalBounds(w: int, v: int)
    requires w <= v
    ensures EnemyShotIntervalForWave(w) >= 1.0
    ensures EnemyShotIntervalForWave(v) <= EnemyShotIntervalForWave(w)
    ensures EnemyShotIntervalForWave(1) == 2.4
    ensures w >= 15 ==> EnemyShotIntervalForWave(w) == 1.0
  {
  }

  /** Boats move three pixels per second faster each wave; 25 in wave 1. */
  lemma MoveSpeedGrows(w: int)
    ensures EnemyMoveSpeedForWave(w + 1) == EnemyMoveSpeedForWave(w) + 3
    ensures EnemyMoveSpeedForWave(1) == 25
  {
  }

  /** Enemy shots never exceed 180 px/s, grow with the wave until they reach it, and
      fly at 110 px/s in wave 1. */
  lemma ProjectileSpeedBounds(w: int, v: int)
    requires w <= v
    ensures EnemyProjectileSpeedForWave(w) <= 180
    ensures EnemyProjectileSpeedForWave(w) <= EnemyProjectileSpeedForWave(v)
    ensures EnemyProjectileSpeedForWave(1) == 110
    ensures w >= 15 ==> EnemyProjectileSpeedForWave(w) == 180
  {
  }
}
