/** src/combatPhase.js: spawning the enemy fleet, enemy shots at random walls,
    turret volleys, and one step of combat (boats move and shoot, projectiles fly,
    break walls and sink boats). */
module CombatPhase {
  import opened Grid
  import opened Regions
  import opened Utils
  import opened State
  import opened Courtyard
  import opened GameConstants
  import TurretPhase

  datatype Option<T> = None | Some(value: T)

  /** What `updateCombat` reports: whether the fleet is gone, and whether the last
      wall fell, which the source signals through its `onAllWallsDestroyed` hook and
      answers with `allDestroyed: false`. */
  datatype CombatResult = CombatResult(allDestroyed: bool, wallsGone: bool)

  const EnemyShotLife: real := 2.5
  const TurretShotLife: real := 2.0
  const TurretShotSpeed: real := 240.0
  /** How far outside the buffer a projectile may fly before it is dropped. */
  const FlightMargin: real := 20.0
  /** How close to the buffer's edge a boat may sail. */
  const EdgeMargin: real := 6.0
  /** A turret shot hits a boat within this many pixels. */
  const HitRadius: real := 10.0

  // ---------------------------------------------------------------------------
  // Spawning

  /** The boat `spawnEnemiesForWave` pushes as boat i of n, given its five draws:
      an angle in its share of the circle moved on by up to 0.5, a distance of 1.35
      to 1.45 radii along it, a heading, a bob phase and a first shot delay. */
  function EnemyFromDraws(s: GameState, geo: Geometry, wave: int, n: nat, i: nat,
                          u1: real, u2: real, u3: real, u4: real, u5: real): Boat
    requires n > 0
  {
    var spd := EnemyMoveSpeedForWave(wave) as real;
    var interval := EnemyShotIntervalForWave(wave);
    var angle := Turn(geo, i as real / n as real) + u1 * 0.5;
    var dir := Turn(geo, u3);
    var (x, y) := RingPoint(s, geo, angle, 1.35 + u2 * 0.10);
    var (vx, vy) := Heading(geo, dir, spd);
    Enemy(x, y, vx, vy, dir, Turn(geo, u4), EnemyHealthForWave(wave), FirstShotDelay(u5, wave), interval)
  }

  /** The delay before a new enemy's first shot: the fraction u of the wave's shot
      interval, so below one interval when u is a draw. */
  function FirstShotDelay(u: real, wave: int): (cd: real)
    ensures 0.0 <= u < 1.0 ==> 0.0 <= cd < EnemyShotIntervalForWave(wave)
  {
    var interval := EnemyShotIntervalForWave(wave);
    ShotIntervalBounds(wave, wave);
    if 0.0 <= u < 1.0 then MulBelow(u, interval); u * interval else u * interval
  }

  /** The fraction u of a full turn, in radians. */
  function Turn(geo: Geometry, u: real): real
  {
    u * geo.pi * 2.0
  }

  /** The point at the given angle on the island's ellipse scaled by rr. */
  function RingPoint(s: GameState, geo: Geometry, angle: real, rr: real): (real, real)
  {
    (s.cx + geo.cos(angle) * s.rx * rr, s.cy + geo.sin(angle) * s.ry * rr)
  }

  /** The velocity of speed spd along heading dir. */
  function Heading(geo: Geometry, dir: real, spd: real): (real, real)
  {
    (geo.cos(dir) * spd, geo.sin(dir) * spd)
  }

  /** Boat i of the fleet of a wave whose generator started at `seed`: it takes the
      draws 5i + 1 to 5i + 5. */
  function SpawnedBoat(s: GameState, geo: Geometry, wave: int, seed: int, i: nat): Boat
    requires 0 <= seed < Modulus && EnemyCountForWave(wave) > 0
  {
    EnemyFromDraws(s, geo, wave, EnemyCountForWave(wave), i,
                   Unit(SeedAfter(seed, 5 * i + 1)), Unit(SeedAfter(seed, 5 * i + 2)),
                   Unit(SeedAfter(seed, 5 * i + 3)), Unit(SeedAfter(seed, 5 * i + 4)),
                   Unit(SeedAfter(seed, 5 * i + 5)))
  }

  /** The first k boats of the fleet. */
  function Fleet(s: GameState, geo: Geometry, wave: int, seed: int, k: nat): seq<Boat>
    requires 0 <= seed < Modulus && EnemyCountForWave(wave) > 0
  {
    seq(k, i requires 0 <= i < k => SpawnedBoat(s, geo, wave, seed, i))
  }

  /** The number of boats a wave spawns: the loop runs `enemyCountForWave` times,
      not at all when that is not positive. */
  function FleetSize(wave: int): nat
  {
    if EnemyCountForWave(wave) > 0 then EnemyCountForWave(wave) else 0
  }

  /** The fleet of a wave: 3 + wave enemies (none for a wave below -2). Every
      spawned boat is an enemy with 1 + wave / 2 hit points, at least one from
      wave 0 on, and the wave's shot interval, and its first shot comes within one
      interval. */
  lemma FleetStats(s: GameState, geo: Geometry, wave: int, seed: int, i: nat)
    requires 0 <= seed < Modulus && EnemyCountForWave(wave) > 0 && i < FleetSize(wave)
    ensures FleetSize(wave) == 3 + wave
    ensures var b := SpawnedBoat(s, geo, wave, seed, i);
      && b.Enemy? && b.hp == EnemyHealthForWave(wave)
      && b.shotInterval == EnemyShotIntervalForWave(wave)
      && 0.0 <= b.shotCd < b.shotInterval
    ensures wave >= 0 ==> SpawnedBoat(s, geo, wave, seed, i).hp >= 1
  {
    var u5 := Unit(SeedAfter(seed, 5 * i + 5));
    assert SpawnedBoat(s, geo, wave, seed, i).shotCd == FirstShotDelay(u5, wave);
    if wave >= 0 {
      EnemyHealthBounds(wave);
    }
  }

  /** `spawnEnemiesForWave(wave)`: the boats are replaced by the wave's fleet, five
      draws per boat. */
  method SpawnEnemiesForWave(s: GameState, rng: Rng, geo: Geometry, wave: int)
    requires rng.Valid()
    modifies s`boats, rng
    ensures rng.Valid() && rng.seed == SeedAfter(old(rng.seed), 5 * FleetSize(wave))
    ensures |s.boats| == FleetSize(wave)
    ensures FleetSize(wave) > 0 ==> s.boats == Fleet(s, geo, wave, old(rng.seed), FleetSize(wave))
  {
    ghost var seed := rng.seed;
    s.boats := [];
    var n := EnemyCountForWave(wave);
    if n <= 0 {
      return;
    }
    for i := 0 to n
      invariant rng.Valid() && rng.seed == SeedAfter(seed, 5 * i)
      invariant s.boats == Fleet(s, geo, wave, seed, i)
    {
      var b := DrawEnemy(s, rng, geo, wave, n, i, seed);
      FleetSnoc(s, geo, wave, seed, i);
      s.boats := s.boats + [b];
    }
  }

  lemma FleetSnoc(s: GameState, geo: Geometry, wave: int, seed: int, i: nat)
    requires 0 <= seed < Modulus && EnemyCountForWave(wave) > 0
    ensures Fleet(s, geo, wave, seed, i + 1) == Fleet(s, geo, wave, seed, i) + [SpawnedBoat(s, geo, wave, seed, i)]
  {
  }

  /** One iteration of the loop of `spawnEnemiesForWave`: five draws and the boat
      they give. */
  method DrawEnemy(s: GameState, rng: Rng, geo: Geometry, wave: int, n: int, i: nat, ghost seed: int)
    returns (b: Boat)
    requires rng.Valid() && 0 <= seed < Modulus && rng.seed == SeedAfter(seed, 5 * i)
    requires n == EnemyCountForWave(wave) && i < n
    modifies rng
    ensures rng.Valid() && rng.seed == SeedAfter(seed, 5 * i + 5)
    ensures b == SpawnedBoat(s, geo, wave, seed, i)
  {
    var u1 := rng.Next();
    assert rng.seed == SeedAfter(seed, 5 * i + 1);
    var u2 := rng.Next();
    assert rng.seed == SeedAfter(seed, 5 * i + 2);
    var u3 := rng.Next();
    assert rng.seed == SeedAfter(seed, 5 * i + 3);
    var u4 := rng.Next();
    assert rng.seed == SeedAfter(seed, 5 * i + 4);
    var u5 := rng.Next();
    assert rng.seed == SeedAfter(seed, 5 * i + 5);
    b := EnemyFromDraws(s, geo, wave, n, i, u1, u2, u3, u4, u5);
  }

  // ---------------------------------------------------------------------------
  // Enemy shots

  /** `pickRandomWallKey()`: nothing, and no draw, when there are no walls;
      otherwise one draw gives an index below the wall count, and the walk over the
      set stops at that element. The set is walked in an arbitrary order. */
  method PickRandomWallKey(s: GameState, rng: Rng) returns (k: Option<Tile>)
    requires rng.Valid()
    modifies rng
    ensures rng.Valid()
    ensures k.None? <==> s.wallTiles == {}
    ensures k.Some? ==> k.value in s.wallTiles
    ensures rng.seed == if s.wallTiles == {} then old(rng.seed) else NextSeed(old(rng.seed))
  {
    var walls := s.wallTiles;
    var size := |walls|;
    if size <= 0 {
      return None;
    }
    var r := rng.Next();
    var idx := (r * size as real).Floor;
    DrawIsFloor(rng.seed, 0, size - 1);
    DrawRange(rng.seed, 0, size - 1);
    var rest := walls;
    while idx > 0
      invariant 0 <= idx < |rest| && rest <= walls
      decreases idx
    {
      var skipped :| skipped in rest;
      rest := rest - {skipped};
      idx := idx - 1;
    }
    var picked :| picked in rest;
    return Some(picked);
  }

  /** The centre of a tile, in pixels. */
  function TileCentre(t: Tile): (real, real)
  {
    ((t.0 * TileSize) as real + TileSize as real / 2.0, (t.1 * TileSize) as real + TileSize as real / 2.0)
  }

  /** `Math.hypot(dx, dy) || 1`: the distance, or 1 when it is zero. */
  function Distance(geo: Geometry, dx: real, dy: real): (d: real)
    ensures d != 0.0
  {
    var h := geo.hypot(dx, dy);
    if h == 0.0 then 1.0 else h
  }

  /** The projectile boat b fires at wall tile t in the given wave: from the boat
      towards the tile's centre at the wave's projectile speed, for 2.5 seconds. */
  function EnemyShotAt(geo: Geometry, b: Boat, t: Tile, wave: int): Projectile
  {
    var (tx, ty) := TileCentre(t);
    var dx := tx - b.x;
    var dy := ty - b.y;
    var d := Distance(geo, dx, dy);
    var speed := EnemyProjectileSpeedForWave(wave) as real;
    Projectile(b.x, b.y, (dx / d) * speed, (dy / d) * speed, EnemyShotLife, EnemyShot)
  }

  /** p is a shot of boat b at one of the walls. */
  ghost predicate AimedAtWall(geo: Geometry, p: Projectile, b: Boat, walls: set<Tile>, wave: int)
  {
    exists t :: t in walls && p == EnemyShotAt(geo, b, t, wave)
  }

  /** `enemyFireAtWalls(enemy)`: with no walls nothing happens and nothing is
      drawn; otherwise one shot at a randomly picked wall is appended. */
  method EnemyFireAtWalls(s: GameState, rng: Rng, geo: Geometry, enemy: Boat)
    requires rng.Valid()
    modifies s`projectiles, rng
    ensures rng.Valid()
    ensures s.wallTiles == {} ==> s.projectiles == old(s.projectiles) && rng.seed == old(rng.seed)
    ensures s.wallTiles != {} ==>
      && |s.projectiles| == |old(s.projectiles)| + 1
      && s.projectiles[..|old(s.projectiles)|] == old(s.projectiles)
      && AimedAtWall(geo, s.projectiles[|old(s.projectiles)|], enemy, s.wallTiles, s.wave)
      && rng.seed == NextSeed(old(rng.seed))
  {
    var k := PickRandomWallKey(s, rng);
    if k.None? {
      return;
    }
    var p := EnemyShotAt(geo, enemy, k.value, s.wave);
    s.projectiles := s.projectiles + [p];
    assert s.projectiles[..|old(s.projectiles)|] == old(s.projectiles);
  }

  // ---------------------------------------------------------------------------
  // Turret volleys

  /** `turretFootprintCells(t)`: the anchor and its right neighbour for direction
      0, the one below otherwise; the same cells as the turret phase's footprint. */
  function TurretFootprintCells(t: Turret): (cells: seq<Tile>)
    ensures cells == TurretPhase.Footprint(t)
  {
    if t.dir == 0 then [(t.x, t.y), (t.x + 1, t.y)] else [(t.x, t.y), (t.x, t.y + 1)]
  }

  /** The turret's whole footprint lies in the (non-empty) courtyard set. */
  predicate OnCourtyard(courtyard: set<Tile>, t: Turret)
  {
    |courtyard| > 0 && forall c :: c in TurretFootprintCells(t) ==> c in courtyard
  }

  /** The emptiness test is implied by the footprint test: a turret is on the
      courtyard iff both its cells are courtyard tiles. */
  lemma OnCourtyardIsFootprint(courtyard: set<Tile>, t: Turret)
    ensures OnCourtyard(courtyard, t) <==> Elems(TurretPhase.Footprint(t)) <= courtyard
  {
    var cells := TurretFootprintCells(t);
    if Elems(cells) <= courtyard {
      assert cells[0] in courtyard;
    }
  }

  /** `turretIsStillOnCourtyard(t)`. */
  method TurretIsStillOnCourtyard(s: GameState, t: Turret) returns (b: bool)
    ensures b <==> OnCourtyard(s.courtyardSet, t)
  {
    var set_ := s.courtyardSet;
    if |set_| == 0 {
      return false;
    }
    var cells := TurretFootprintCells(t);
    for i := 0 to |cells|
      invariant forall j :: 0 <= j < i ==> cells[j] in set_
    {
      if cells[i] !in set_ {
        return false;
      }
    }
    return true;
  }

  /** The shot of turret t at the aim point: from the centre of its footprint
      towards the aim, at 240 px/s, for 2 seconds. */
  function TurretShotAt(geo: Geometry, t: Turret, aimX: real, aimY: real): Projectile
  {
    var w := if t.dir == 0 then 2 else 1;
    var h := if t.dir == 0 then 1 else 2;
    var ox := (t.x as real + w as real / 2.0) * TileSize as real;
    var oy := (t.y as real + h as real / 2.0) * TileSize as real;
    var dx := aimX - ox;
    var dy := aimY - oy;
    var d := Distance(geo, dx, dy);
    Projectile(ox, oy, (dx / d) * TurretShotSpeed, (dy / d) * TurretShotSpeed, TurretShotLife, TurretShot)
  }

  /** The shots of a volley: one per turret still on the courtyard, in turret
      order. */
  function Volley(geo: Geometry, courtyard: set<Tile>, ts: seq<Turret>, aimX: real, aimY: real): seq<Projectile>
  {
    if |ts| == 0 then []
    else
      var rest := Volley(geo, courtyard, ts[..|ts| - 1], aimX, aimY);
      var t := ts[|ts| - 1];
      if OnCourtyard(courtyard, t) then rest + [TurretShotAt(geo, t, aimX, aimY)] else rest
  }

  /** The number of turrets still on the courtyard. */
  function OnCourtyardCount(courtyard: set<Tile>, ts: seq<Turret>): nat
  {
    if |ts| == 0 then 0
    else OnCourtyardCount(courtyard, ts[..|ts| - 1]) + (if OnCourtyard(courtyard, ts[|ts| - 1]) then 1 else 0)
  }

  /** A volley has one shot per turret on the courtyard, so never more shots than
      turrets and none without a courtyard; every shot is a turret shot that lives
      two seconds. */
  lemma {:induction false} VolleyShape(geo: Geometry, courtyard: set<Tile>, ts: seq<Turret>, aimX: real, aimY: real)
    ensures |Volley(geo, courtyard, ts, aimX, aimY)| == OnCourtyardCount(courtyard, ts) <= |ts|
    ensures courtyard == {} ==> Volley(geo, courtyard, ts, aimX, aimY) == []
    ensures forall p :: p in Volley(geo, courtyard, ts, aimX, aimY) ==>
      p.kind == TurretShot && p.life == TurretShotLife
  {
    if |ts| > 0 {
      VolleyShape(geo, courtyard, ts[..|ts| - 1], aimX, aimY);
    }
  }

  /** `fireTurretsAt(aimX, aimY)`: every turret still fully on the courtyard fires
      one shot at the aim point; the turrets themselves are left alone. */
  method FireTurretsAt(s: GameState, geo: Geometry, aimX: real, aimY: real)
    modifies s`projectiles
    ensures s.projectiles == old(s.projectiles) + Volley(geo, s.courtyardSet, s.turrets, aimX, aimY)
  {
    var ts := s.turrets;
    if |ts| == 0 {
      assert s.projectiles == old(s.projectiles) + [];
      return;
    }
    for i := 0 to |ts|
      invariant s.projectiles == old(s.projectiles) + Volley(geo, s.courtyardSet, ts[..i], aimX, aimY)
    {
      assert ts[..i + 1][..i] == ts[..i];
      var on := TurretIsStillOnCourtyard(s, ts[i]);
      if !on {
        continue;
      }
      var p := TurretShotAt(geo, ts[i], aimX, aimY);
      s.projectiles := s.projectiles + [p];
    }
    assert ts[..|ts|] == ts;
  }

  // ---------------------------------------------------------------------------
  // Boats: one step of the enemy loop of `updateCombat`

  /** `isLandPixel(x, y)`: inside the island ellipse grown by 4% across and 5% down. */
  predicate IsLandPixel(s: GameState, x: real, y: real)
  {
    InsideEllipse(x, y, s.cx, s.cy, s.rx * 1.04, s.ry * 1.05)
  }

  /** The boat carried along its velocity for dt seconds. */
  function Drift(b: Boat, dt: real): Boat
    requires b.Enemy?
  {
    b.(x := b.x + b.vx * dt, y := b.y + b.vy * dt)
  }

  /** The four edge checks, in order: a boat past the margin of an edge is put
      back on it and its velocity across that edge is reversed. */
  function KeepInBounds(b: Boat): Boat
    requires b.Enemy?
  {
    var b1 := if b.x < EdgeMargin then b.(x := EdgeMargin, vx := -b.vx) else b;
    var b2 := if b1.x > InternalW as real - EdgeMargin then b1.(x := InternalW as real - EdgeMargin, vx := -b1.vx) else b1;
    var b3 := if b2.y < EdgeMargin then b2.(y := EdgeMargin, vy := -b2.vy) else b2;
    if b3.y > InternalH as real - EdgeMargin then b3.(y := InternalH as real - EdgeMargin, vy := -b3.vy) else b3
  }

  /** The land bounce: a boat on land has the inward part of its velocity
      reflected about the outward normal from the island centre, and is pushed 8
      pixels along that normal. */
  function LandBounce(s: GameState, geo: Geometry, b: Boat): Boat
    requires b.Enemy?
  {
    if !IsLandPixel(s, b.x, b.y) then b
    else
      var nx := b.x - s.cx;
      var ny := b.y - s.cy;
      var nd := Distance(geo, nx, ny);
      var ux := nx / nd;
      var uy := ny / nd;
      var b1 := Reflect(b, ux, uy);
      b1.(x := b1.x + ux * 8.0, y := b1.y + uy * 8.0)
  }

  /** The velocity reflected about the normal (ux, uy) when it points against it. */
  function Reflect(b: Boat, ux: real, uy: real): Boat
    requires b.Enemy?
  {
    var dot := b.vx * ux + b.vy * uy;
    if dot < 0.0 then b.(vx := b.vx - 2.0 * dot * ux, vy := b.vy - 2.0 * dot * uy) else b
  }

  /** The shot clock: dt seconds less, back to a full interval once it runs out. */
  function Reload(b: Boat, dt: real): Boat
    requires b.Enemy?
  {
    if b.shotCd - dt <= 0.0 then b.(shotCd := b.shotInterval) else b.(shotCd := b.shotCd - dt)
  }

  /** An enemy's shot clock runs out in this step, so it fires. */
  predicate Fires(b: Boat, dt: real)
  {
    b.Enemy? && b.shotCd - dt <= 0.0
  }

  /** A boat after one step of the enemy loop: moved, kept in bounds, bounced off
      land, turned to face its velocity and its shot clock advanced. A scenery boat
      has no velocity and is left where it is. */
  function Advance(s: GameState, geo: Geometry, dt: real, b: Boat): Boat
  {
    if b.Scenery? then b else Reload(Sail(s, geo, dt, b), dt)
  }

  /** The boat moved, kept in bounds, bounced off land and turned to face its
      velocity, before its shot clock runs. */
  function Sail(s: GameState, geo: Geometry, dt: real, b: Boat): Boat
    requires b.Enemy?
  {
    var b1 := LandBounce(s, geo, KeepInBounds(Drift(b, dt)));
    b1.(dir := geo.atan2(b1.vy, b1.vx))
  }

  /** Every boat advanced. */
  function Advanced(s: GameState, geo: Geometry, dt: real, bs: seq<Boat>): seq<Boat>
  {
    seq(|bs|, i requires 0 <= i < |bs| => Advance(s, geo, dt, bs[i]))
  }

  /** The advanced boats that fire in this step, in boat order. */
  function Shooters(s: GameState, geo: Geometry, dt: real, bs: seq<Boat>): seq<Boat>
  {
    if |bs| == 0 then []
    else
      var last := bs[|bs| - 1];
      Shooters(s, geo, dt, bs[..|bs| - 1]) + (if Fires(last, dt) then [Advance(s, geo, dt, last)] else [])
  }

  /** shots[k] is a shot of shooters[k] at one of the walls, for every k. */
  ghost predicate ShotsAtWalls(geo: Geometry, shots: seq<Projectile>, shooters: seq<Boat>, walls: set<Tile>, wave: int)
  {
    |shots| == |shooters| && forall k :: 0 <= k < |shots| ==> AimedAtWall(geo, shots[k], shooters[k], walls, wave)
  }

  /** The edge checks leave the boat inside the margins, only flip the signs of its
      velocity and touch nothing else; a boat already inside is left alone. */
  lemma KeepInBoundsSpec(b: Boat)
    requires b.Enemy?
    ensures var r := KeepInBounds(b);
      && r.Enemy?
      && EdgeMargin <= r.x <= InternalW as real - EdgeMargin
      && EdgeMargin <= r.y <= InternalH as real - EdgeMargin
      && (r.vx == b.vx || r.vx == -b.vx) && (r.vy == b.vy || r.vy == -b.vy)
      && r.(x := b.x, y := b.y, vx := b.vx, vy := b.vy) == b
    ensures EdgeMargin <= b.x <= InternalW as real - EdgeMargin && EdgeMargin <= b.y <= InternalH as real - EdgeMargin
      ==> KeepInBounds(b) == b
  {
  }

  /** For a unit normal, the reflection turns an inward velocity outward: its
      component along the normal changes sign. */
  lemma ReflectTurnsOutward(b: Boat, ux: real, uy: real)
    requires b.Enemy? && ux * ux + uy * uy == 1.0
    ensures var r := Reflect(b, ux, uy);
      r.vx * ux + r.vy * uy == if b.vx * ux + b.vy * uy < 0.0 then -(b.vx * ux + b.vy * uy) else b.vx * ux + b.vy * uy
    ensures Reflect(b, ux, uy).vx * ux + Reflect(b, ux, uy).vy * uy >= 0.0 || Reflect(b, ux, uy) == b
  {
    var dot := b.vx * ux + b.vy * uy;
    if dot < 0.0 {
      var r := Reflect(b, ux, uy);
      calc {
        r.vx * ux + r.vy * uy;
        (b.vx - 2.0 * dot * ux) * ux + (b.vy - 2.0 * dot * uy) * uy;
        dot - 2.0 * dot * (ux * ux + uy * uy);
        -dot;
      }
    }
  }

  /** Advancing keeps what the boat is, its hit points and its shot interval. With
      a non-negative step and a shot clock within a positive interval, the clock
      stays within it and above zero; a boat that fires starts a full interval. */
  lemma AdvanceKeeps(s: GameState, geo: Geometry, dt: real, b: Boat)
    ensures var r := Advance(s, geo, dt, b);
      && r.Enemy? == b.Enemy?
      && (b.Scenery? ==> r == b)
      && (b.Enemy? ==> r.hp == b.hp && r.shotInterval == b.shotInterval)
    ensures b.Enemy? && dt >= 0.0 && 0.0 < b.shotInterval && b.shotCd <= b.shotInterval ==>
      0.0 < Advance(s, geo, dt, b).shotCd <= b.shotInterval
    ensures Fires(b, dt) ==> Advance(s, geo, dt, b).shotCd == b.shotInterval
    ensures b.Enemy? && !Fires(b, dt) ==> Advance(s, geo, dt, b).shotCd == b.shotCd - dt
  {
    if b.Enemy? {
      var b1 := Sail(s, geo, dt, b);
      assert b1.Enemy? && b1.shotCd == b.shotCd && b1.shotInterval == b.shotInterval && b1.hp == b.hp;
    }
  }

  /** Only enemies whose clock runs out fire, so never more shots than boats. */
  lemma {:induction false} ShootersBound(s: GameState, geo: Geometry, dt: real, bs: seq<Boat>)
    ensures |Shooters(s, geo, dt, bs)| <= |bs|
    ensures (forall b :: b in bs ==> !Fires(b, dt)) ==> Shooters(s, geo, dt, bs) == []
  {
    if |bs| > 0 {
      ShootersBound(s, geo, dt, bs[..|bs| - 1]);
      assert forall b :: b in bs[..|bs| - 1] ==> b in bs;
    }
  }

  /** The enemy loop of `updateCombat`: every boat advances in turn, and each one
      whose clock ran out fires at a random wall when there is one. */
  method MoveBoats(s: GameState, rng: Rng, geo: Geometry, dt: real)
    requires rng.Valid()
    modifies s`boats, s`projectiles, rng
    ensures s.boats == Advanced(s, geo, dt, old(s.boats))
    ensures rng.Valid()
    ensures |s.projectiles| >= |old(s.projectiles)| && s.projectiles[..|old(s.projectiles)|] == old(s.projectiles)
    ensures s.wallTiles == {} ==> s.projectiles == old(s.projectiles) && rng.seed == old(rng.seed)
    ensures s.wallTiles != {} ==>
      && ShotsAtWalls(geo, s.projectiles[|old(s.projectiles)|..], Shooters(s, geo, dt, old(s.boats)), s.wallTiles, s.wave)
      && rng.seed == SeedAfter(old(rng.seed), |Shooters(s, geo, dt, old(s.boats))|)
  {
    ghost var bs := s.boats;
    ghost var ps := s.projectiles;
    ghost var seed := rng.seed;
    var n := |s.boats|;
    for i := 0 to n
      invariant rng.Valid()
      invariant |s.boats| == |bs| == n
      invariant forall k :: 0 <= k < i ==> s.boats[k] == Advance(s, geo, dt, bs[k])
      invariant forall k :: i <= k < n ==> s.boats[k] == bs[k]
      invariant |s.projectiles| >= |ps| && s.projectiles[..|ps|] == ps
      invariant s.wallTiles == {} ==> s.projectiles == ps && rng.seed == seed
      invariant s.wallTiles != {} ==>
        && ShotsAtWalls(geo, s.projectiles[|ps|..], Shooters(s, geo, dt, bs[..i]), s.wallTiles, s.wave)
        && rng.seed == SeedAfter(seed, |Shooters(s, geo, dt, bs[..i])|)
    {
      ghost var before := s.projectiles;
      MoveBoat(s, rng, geo, dt, i);
      ShootersSnoc(s, geo, dt, bs, i);
      if s.wallTiles != {} && Fires(bs[i], dt) {
        TailSnoc(s.projectiles, before, |ps|);
        ShotsSnoc(geo, before[|ps|..], Shooters(s, geo, dt, bs[..i]), s.projectiles[|before|], s.boats[i], s.wallTiles, s.wave);
      }
    }
    assert bs[..|bs|] == bs;
  }

  lemma ShootersSnoc(s: GameState, geo: Geometry, dt: real, bs: seq<Boat>, i: nat)
    requires i < |bs|
    ensures Shooters(s, geo, dt, bs[..i + 1]) ==
      Shooters(s, geo, dt, bs[..i]) + (if Fires(bs[i], dt) then [Advance(s, geo, dt, bs[i])] else [])
  {
    assert bs[..i + 1][..i] == bs[..i];
  }

  lemma TailSnoc(ps: seq<Projectile>, before: seq<Projectile>, m: nat)
    requires m <= |before| && |ps| == |before| + 1 && ps[..|before|] == before
    ensures ps[m..] == before[m..] + [ps[|before|]]
  {
  }

  lemma ShotsSnoc(geo: Geometry, shots: seq<Projectile>, shooters: seq<Boat>, p: Projectile, b: Boat,
                  walls: set<Tile>, wave: int)
    requires ShotsAtWalls(geo, shots, shooters, walls, wave) && AimedAtWall(geo, p, b, walls, wave)
    ensures ShotsAtWalls(geo, shots + [p], shooters + [b], walls, wave)
  {
    var s2, b2 := shots + [p], shooters + [b];
    forall k | 0 <= k < |s2| ensures AimedAtWall(geo, s2[k], b2[k], walls, wave) {
      if k < |shots| {
        assert s2[k] == shots[k] && b2[k] == shooters[k];
      }
    }
  }

  /** One pass of the enemy loop: boat i advances, and fires if its clock ran out
      and there is a wall to aim at. */
  method MoveBoat(s: GameState, rng: Rng, geo: Geometry, dt: real, i: nat)
    requires rng.Valid() && i < |s.boats|
    modifies s`boats, s`projectiles, rng
    ensures s.boats == old(s.boats)[i := Advance(s, geo, dt, old(s.boats[i]))]
    ensures rng.Valid()
    ensures !(Fires(old(s.boats[i]), dt) && s.wallTiles != {}) ==>
      s.projectiles == old(s.projectiles) && rng.seed == old(rng.seed)
    ensures Fires(old(s.boats[i]), dt) && s.wallTiles != {} ==>
      && |s.projectiles| == |old(s.projectiles)| + 1
      && s.projectiles[..|old(s.projectiles)|] == old(s.projectiles)
      && AimedAtWall(geo, s.projectiles[|old(s.projectiles)|], s.boats[i], s.wallTiles, s.wave)
      && rng.seed == NextSeed(old(rng.seed))
  {
    var b := s.boats[i];
    if b.Scenery? {
      return;
    }
    b := SailBoat(s, geo, dt, b);
    b := b.(shotCd := b.shotCd - dt);
    if b.shotCd <= 0.0 {
      b := b.(shotCd := b.shotInterval);
      s.boats := s.boats[i := b];
      EnemyFireAtWalls(s, rng, geo, b);
    } else {
      s.boats := s.boats[i := b];
    }
  }

  /** The movement part of one pass of the enemy loop: drift, the edge checks,
      the land bounce and the new heading. */
  method SailBoat(s: GameState, geo: Geometry, dt: real, b0: Boat) returns (b: Boat)
    requires b0.Enemy?
    ensures b == Sail(s, geo, dt, b0)
  {
    b := b0.(x := b0.x + b0.vx * dt, y := b0.y + b0.vy * dt);
    b := ClampBoat(b);
    b := BounceBoat(s, geo, b);
    b := b.(dir := geo.atan2(b.vy, b.vx));
  }

  /** The four edge checks of the enemy loop. */
  method ClampBoat(b0: Boat) returns (b: Boat)
    requires b0.Enemy?
    ensures b == KeepInBounds(b0)
  {
    b := b0;
    if b.x < EdgeMargin {
      b := b.(x := EdgeMargin, vx := -b.vx);
    }
    if b.x > InternalW as real - EdgeMargin {
      b := b.(x := InternalW as real - EdgeMargin, vx := -b.vx);
    }
    if b.y < EdgeMargin {
      b := b.(y := EdgeMargin, vy := -b.vy);
    }
    if b.y > InternalH as real - EdgeMargin {
      b := b.(y := InternalH as real - EdgeMargin, vy := -b.vy);
    }
  }

  /** The land bounce of the enemy loop. */
  method BounceBoat(s: GameState, geo: Geometry, b0: Boat) returns (b: Boat)
    requires b0.Enemy?
    ensures b == LandBounce(s, geo, b0)
  {
    b := b0;
    if IsLandPixel(s, b.x, b.y) {
      var nx := b.x - s.cx;
      var ny := b.y - s.cy;
      var nd := Distance(geo, nx, ny);
      var ux := nx / nd;
      var uy := ny / nd;
      var dot := b.vx * ux + b.vy * uy;
      if dot < 0.0 {
        b := b.(vx := b.vx - 2.0 * dot * ux, vy := b.vy - 2.0 * dot * uy);
      }
      assert b == Reflect(b0, ux, uy);
      b := b.(x := b.x + ux * 8.0, y := b.y + uy * 8.0);
    }
  }

  // ---------------------------------------------------------------------------
  // Projectiles: the backward loop of `updateCombat`

  /** The part of the state a projectile step touches. */
  datatype Arena = Arena(walls: set<Tile>, boats: seq<Boat>, projectiles: seq<Projectile>)

  function ArenaOf(s: GameState): Arena
    reads s`wallTiles, s`boats, s`projectiles
  {
    Arena(s.wallTiles, s.boats, s.projectiles)
  }

  /** The projectile moved for dt seconds, with dt seconds less to live. */
  function Moved(p: Projectile, dt: real): Projectile
  {
    p.(x := p.x + p.vx * dt, y := p.y + p.vy * dt, life := p.life - dt)
  }

  /** Some life left and no more than 20 pixels outside the buffer. */
  predicate InFlight(p: Projectile)
  {
    && p.life > 0.0
    && -FlightMargin <= p.x <= InternalW as real + FlightMargin
    && -FlightMargin <= p.y <= InternalH as real + FlightMargin
  }

  /** The tile under the projectile, flooring the pixel position. */
  function TileUnder(p: Projectile): Tile
  {
    ((p.x / TileSize as real).Floor, (p.y / TileSize as real).Floor)
  }

  /** The projectile is within 10 pixels of the boat. */
  predicate Hits(b: Boat, p: Projectile)
  {
    var dx := b.x - p.x;
    var dy := b.y - p.y;
    dx * dx + dy * dy <= HitRadius * HitRadius
  }

  /** The boat a turret shot strikes: the last one in range, since the search runs
      from the end of the list; -1 when none is. */
  function LastHit(bs: seq<Boat>, p: Projectile): (j: int)
    ensures -1 <= j < |bs|
    ensures j >= 0 ==> Hits(bs[j], p)
    ensures forall k :: j < k < |bs| ==> !Hits(bs[k], p)
  {
    if |bs| == 0 then -1
    else if Hits(bs[|bs| - 1], p) then |bs| - 1
    else LastHit(bs[..|bs| - 1], p)
  }

  /** Boat j after a hit: an enemy loses a hit point and sinks when none is left; a
      scenery boat has no hit points and stays as it is. */
  function AfterHit(bs: seq<Boat>, j: nat): seq<Boat>
    requires j < |bs|
  {
    var b := bs[j];
    if b.Scenery? then bs
    else if b.hp - 1 <= 0 then bs[..j] + bs[j + 1..]
    else bs[j := b.(hp := b.hp - 1)]
  }

  /** Every enemy has hit points left. */
  predicate HpPositive(bs: seq<Boat>)
  {
    forall b :: b in bs && b.Enemy? ==> b.hp > 0
  }

  /** The hit points of the whole fleet. */
  function TotalHp(bs: seq<Boat>): int
  {
    if |bs| == 0 then 0 else (if bs[0].Enemy? then bs[0].hp else 0) + TotalHp(bs[1..])
  }

  /** The projectile at index i processed: moved; dropped once out of flight;
      otherwise an enemy shot over a wall breaks it and is spent, and a turret shot
      in range of a boat strikes the last such boat and is spent. A shot that hits
      nothing flies on. */
  function Step(a: Arena, dt: real, i: nat): (r: Arena)
    requires i < |a.projectiles|
    ensures |r.projectiles| >= i && r.projectiles[..i] == a.projectiles[..i]
  {
    var p := Moved(a.projectiles[i], dt);
    var flying := a.projectiles[i := p];
    var spent := a.projectiles[..i] + a.projectiles[i + 1..];
    assert spent[..i] == a.projectiles[..i];
    if !InFlight(p) then a.(projectiles := spent)
    else if p.kind == EnemyShot then
      if TileUnder(p) in a.walls then Arena(a.walls - {TileUnder(p)}, a.boats, spent)
      else a.(projectiles := flying)
    else
      var j := LastHit(a.boats, p);
      if j >= 0 then a.(boats := AfterHit(a.boats, j), projectiles := spent)
      else a.(projectiles := flying)
  }

  /** The step broke the last wall. */
  predicate LastWallFell(a: Arena, r: Arena)
  {
    a.walls != {} && r.walls == {}
  }

  /** The loop over indices n - 1 down to 0, stopping early, and reporting it, when
      the last wall falls. */
  function Sweep(a: Arena, dt: real, n: nat): (Arena, bool)
    requires n <= |a.projectiles|
    decreases n, 1
  {
    if n == 0 then (a, false) else SweepFrom(a, dt, n)
  }

  /** The loop from index n - 1 on: that projectile is processed, then the loop
      stops if it broke the last wall and carries on below it otherwise. */
  function SweepFrom(a: Arena, dt: real, n: nat): (Arena, bool)
    requires 0 < n <= |a.projectiles|
    decreases n, 0
  {
    var a1 := Step(a, dt, n - 1);
    if LastWallFell(a, a1) then (a1, true) else Sweep(a1, dt, n - 1)
  }

  // ---------------------------------------------------------------------------
  // Properties of a step and of the sweep

  lemma {:induction false} TotalHpConcat(a: seq<Boat>, b: seq<Boat>)
    ensures TotalHp(a + b) == TotalHp(a) + TotalHp(b)
  {
    if |a| > 0 {
      assert (a + b)[0] == a[0] && (a + b)[1..] == a[1..] + b;
      TotalHpConcat(a[1..], b);
    } else {
      assert a + b == b;
    }
  }

  /** A hit costs an enemy fleet exactly one hit point: the boat struck loses one,
      and sinks exactly when that was its last; the other boats keep theirs. */
  lemma AfterHitSpec(bs: seq<Boat>, j: nat)
    requires j < |bs| && HpPositive(bs)
    ensures HpPositive(AfterHit(bs, j))
    ensures bs[j].Enemy? ==> TotalHp(AfterHit(bs, j)) == TotalHp(bs) - 1
    ensures bs[j].Scenery? ==> AfterHit(bs, j) == bs
    ensures |AfterHit(bs, j)| == if bs[j].Enemy? && bs[j].hp == 1 then |bs| - 1 else |bs|
  {
    var b := bs[j];
    assert bs == bs[..j] + [b] + bs[j + 1..];
    TotalHpConcat(bs[..j] + [b], bs[j + 1..]);
    TotalHpConcat(bs[..j], [b]);
    assert b in bs;
    if b.Enemy? {
      if b.hp - 1 <= 0 {
        TotalHpConcat(bs[..j], bs[j + 1..]);
        assert forall c :: c in AfterHit(bs, j) ==> c in bs;
      } else {
        var r := AfterHit(bs, j);
        assert r == bs[..j] + [b.(hp := b.hp - 1)] + bs[j + 1..];
        TotalHpConcat(bs[..j] + [b.(hp := b.hp - 1)], bs[j + 1..]);
        TotalHpConcat(bs[..j], [b.(hp := b.hp - 1)]);
        forall c | c in r && c.Enemy? ensures c.hp > 0 {
          var k :| 0 <= k < |r| && r[k] == c;
          if k != j {
            assert c == bs[k];
          }
        }
      }
    }
  }

  /** What one step may do: walls only go, at most one at a time; boats only sink
      and enemies keep some hit points; projectiles only go; and the processed
      projectiles from index i on are all in flight. */
  lemma StepFacts(a: Arena, dt: real, i: nat)
    requires i < |a.projectiles|
    ensures var r := Step(a, dt, i);
      && r.walls <= a.walls && |a.walls - r.walls| <= 1
      && |r.boats| <= |a.boats| && |r.projectiles| <= |a.projectiles|
      && (HpPositive(a.boats) ==> HpPositive(r.boats))
      && ((forall k :: i < k < |a.projectiles| ==> InFlight(a.projectiles[k])) ==>
            forall k :: i <= k < |r.projectiles| ==> InFlight(r.projectiles[k]))
  {
    var r := Step(a, dt, i);
    var p := Moved(a.projectiles[i], dt);
    if InFlight(p) && p.kind == EnemyShot && TileUnder(p) in a.walls {
      assert a.walls - r.walls == {TileUnder(p)};
    } else {
      assert a.walls - r.walls == {};
    }
    if InFlight(p) && p.kind == TurretShot && LastHit(a.boats, p) >= 0 && HpPositive(a.boats) {
      AfterHitSpec(a.boats, LastHit(a.boats, p));
    }
    if forall k :: i < k < |a.projectiles| ==> InFlight(a.projectiles[k]) {
      forall k | i <= k < |r.projectiles| ensures InFlight(r.projectiles[k]) {
        if |r.projectiles| < |a.projectiles| {
          assert r.projectiles[k] == a.projectiles[k + 1];
        } else {
          assert r.projectiles == a.projectiles[i := p];
        }
      }
    }
  }

  /** What the whole sweep may do: the walls only shrink, the fleet only shrinks
      and keeps its enemies afloat with hit points, projectiles only go; when it
      stops early the last wall has just fallen, and otherwise every projectile
      left is in flight. */
  lemma {:induction false} SweepFacts(a: Arena, dt: real, n: nat)
    requires n <= |a.projectiles|
    requires forall k :: n <= k < |a.projectiles| ==> InFlight(a.projectiles[k])
    decreases n
    ensures var (r, gone) := Sweep(a, dt, n);
      && r.walls <= a.walls && |r.boats| <= |a.boats| && |r.projectiles| <= |a.projectiles|
      && (HpPositive(a.boats) ==> HpPositive(r.boats))
      && (gone ==> a.walls != {} && r.walls == {})
      && (!gone && a.walls != {} ==> r.walls != {})
      && (!gone ==> forall k :: 0 <= k < |r.projectiles| ==> InFlight(r.projectiles[k]))
  {
    if n > 0 {
      var a1 := Step(a, dt, n - 1);
      StepFacts(a, dt, n - 1);
      if !LastWallFell(a, a1) {
        SweepFacts(a1, dt, n - 1);
      }
    }
  }

  /** A sweep only stops early while walls stand: with no walls it runs to the end
      and reports nothing. */
  lemma {:induction false} SweepWithoutWalls(a: Arena, dt: real, n: nat)
    requires n <= |a.projectiles| && a.walls == {}
    decreases n
    ensures !Sweep(a, dt, n).1 && Sweep(a, dt, n).0.walls == {}
  {
    if n > 0 {
      var a1 := Step(a, dt, n - 1);
      StepFacts(a, dt, n - 1);
      SweepWithoutWalls(a1, dt, n - 1);
    }
  }

  // ---------------------------------------------------------------------------
  // The projectile loop, imperatively

  /** One pass of the projectile loop at index i. The courtyards are recomputed
      whenever a wall breaks and are otherwise left alone; the result says whether
      the last wall just fell. */
  method StepProjectile(s: GameState, dt: real, i: nat) returns (wallsGone: bool)
    requires i < |s.projectiles|
    modifies s`wallTiles, s`boats, s`projectiles, s`courtyardRegions, s`courtyardSet
    ensures ArenaOf(s) == Step(old(ArenaOf(s)), dt, i)
    ensures wallsGone <==> LastWallFell(old(ArenaOf(s)), ArenaOf(s))
    ensures s.wallTiles != old(s.wallTiles) ==> s.CourtyardsCurrent()
    ensures s.wallTiles == old(s.wallTiles) ==>
      s.courtyardRegions == old(s.courtyardRegions) && s.courtyardSet == old(s.courtyardSet)
  {
    ghost var a := ArenaOf(s);
    var ps := s.projectiles;
    var p := Moved(ps[i], dt);
    if p.life <= 0.0 || p.x < -FlightMargin || p.y < -FlightMargin
       || p.x > InternalW as real + FlightMargin || p.y > InternalH as real + FlightMargin {
      s.projectiles := ps[..i] + ps[i + 1..];
      return false;
    }
    s.projectiles := ps[i := p];
    if p.kind == EnemyShot {
      wallsGone := EnemyShotLands(s, dt, i, p, a);
      return;
    }
    TurretShotLands(s, dt, i, p, a);
    return false;
  }

  /** The tail of a pass for an enemy shot still in flight: over a wall it breaks
      that wall, is spent and the courtyards are recomputed; otherwise it flies on. */
  method EnemyShotLands(s: GameState, dt: real, i: nat, p: Projectile, ghost a: Arena) returns (wallsGone: bool)
    requires i < |a.projectiles| && p == Moved(a.projectiles[i], dt) && InFlight(p) && p.kind == EnemyShot
    requires ArenaOf(s) == a.(projectiles := a.projectiles[i := p])
    modifies s`wallTiles, s`projectiles, s`courtyardRegions, s`courtyardSet
    ensures ArenaOf(s) == Step(a, dt, i)
    ensures wallsGone <==> LastWallFell(a, ArenaOf(s))
    ensures s.wallTiles != old(s.wallTiles) ==> s.CourtyardsCurrent()
    ensures s.wallTiles == old(s.wallTiles) ==>
      s.courtyardRegions == old(s.courtyardRegions) && s.courtyardSet == old(s.courtyardSet)
  {
    var tx := (p.x / TileSize as real).Floor;
    var ty := (p.y / TileSize as real).Floor;
    if (tx, ty) !in s.wallTiles {
      return false;
    }
    s.wallTiles := s.wallTiles - {(tx, ty)};
    s.projectiles := s.projectiles[..i] + s.projectiles[i + 1..];
    assert s.projectiles == a.projectiles[..i] + a.projectiles[i + 1..];
    RefreshCourtyards(s);
    return |s.wallTiles| == 0;
  }

  /** The tail of a pass for a turret shot still in flight: it strikes the last
      boat in range, if any, and is then spent; otherwise it flies on. */
  method TurretShotLands(s: GameState, dt: real, i: nat, p: Projectile, ghost a: Arena)
    requires i < |a.projectiles| && p == Moved(a.projectiles[i], dt) && InFlight(p) && p.kind == TurretShot
    requires ArenaOf(s) == a.(projectiles := a.projectiles[i := p])
    modifies s`boats, s`projectiles
    ensures ArenaOf(s) == Step(a, dt, i)
  {
    var j := FindHit(s, p);
    if j >= 0 {
      var b := s.boats[j];
      if b.Enemy? {
        s.boats := s.boats[j := b.(hp := b.hp - 1)];
      }
      s.projectiles := s.projectiles[..i] + s.projectiles[i + 1..];
      assert s.projectiles == a.projectiles[..i] + a.projectiles[i + 1..];
      if b.Enemy? && b.hp - 1 <= 0 {
        s.boats := s.boats[..j] + s.boats[j + 1..];
        assert s.boats == a.boats[..j] + a.boats[j + 1..];
      }
    }
  }

  /** The inner loop of a turret shot: the boats from the last down to the first,
      stopping at the first within 10 pixels. */
  method FindHit(s: GameState, p: Projectile) returns (j: int)
    ensures j == LastHit(s.boats, p)
  {
    j := |s.boats| - 1;
    while j >= 0
      invariant -1 <= j < |s.boats|
      invariant forall k :: j < k < |s.boats| ==> !Hits(s.boats[k], p)
    {
      var b := s.boats[j];
      var dx := b.x - p.x;
      var dy := b.y - p.y;
      if dx * dx + dy * dy <= HitRadius * HitRadius {
        assert Hits(s.boats[j], p);
        break;
      }
      j := j - 1;
    }
    LastHitUnique(s.boats, p, j);
  }

  /** The last boat in range is the only index with a hit and no hit above it. */
  lemma LastHitUnique(bs: seq<Boat>, p: Projectile, j: int)
    requires -1 <= j < |bs| && (j >= 0 ==> Hits(bs[j], p))
    requires forall k :: j < k < |bs| ==> !Hits(bs[k], p)
    ensures j == LastHit(bs, p)
  {
    var l := LastHit(bs, p);
    if l != j {
      assert false;
    }
  }

  /** The projectile loop of `updateCombat`: from the last projectile down to the
      first, stopping as soon as the last wall falls. */
  method UpdateProjectiles(s: GameState, dt: real) returns (wallsGone: bool)
    modifies s`wallTiles, s`boats, s`projectiles, s`courtyardRegions, s`courtyardSet
    ensures (ArenaOf(s), wallsGone) == Sweep(old(ArenaOf(s)), dt, |old(s.projectiles)|)
    ensures old(s.CourtyardsCurrent()) || s.wallTiles != old(s.wallTiles) ==> s.CourtyardsCurrent()
    ensures s.wallTiles == old(s.wallTiles) ==>
      s.courtyardRegions == old(s.courtyardRegions) && s.courtyardSet == old(s.courtyardSet)
  {
    ghost var a0 := ArenaOf(s);
    ghost var current := s.CourtyardsCurrent();
    var i := |s.projectiles|;
    while i > 0
      invariant 0 <= i <= |s.projectiles|
      invariant Sweep(a0, dt, |a0.projectiles|) == Sweep(ArenaOf(s), dt, i)
      invariant s.wallTiles <= a0.walls
      invariant current || s.wallTiles != a0.walls ==> s.CourtyardsCurrent()
      invariant s.wallTiles == a0.walls ==>
        s.courtyardRegions == old(s.courtyardRegions) && s.courtyardSet == old(s.courtyardSet)
    {
      i := i - 1;
      ghost var before := ArenaOf(s);
      wallsGone := StepProjectile(s, dt, i);
      StepFacts(before, dt, i);
      if wallsGone {
        return;
      }
    }
    wallsGone := false;
  }

  /** One combat frame from `before` to `after`: every boat advances, each boat whose
      shot clock runs out fires one shot at a wall (none when no wall stands), the
      shots join the projectiles, and the projectile sweep runs over all of them;
      `gone` reports that it stopped on the last wall. */
  ghost predicate CombatFrame(s: GameState, geo: Geometry, dt: real, wave: int,
                              before: Arena, after: Arena, gone: bool)
  {
    exists shots: seq<Projectile> ::
      && (before.walls == {} ==> shots == [])
      && (before.walls != {} ==> ShotsAtWalls(geo, shots, Shooters(s, geo, dt, before.boats), before.walls, wave))
      && (after, gone) == Sweep(Arena(before.walls, Advanced(s, geo, dt, before.boats), before.projectiles + shots),
                                dt, |before.projectiles| + |shots|)
  }

  /** The shots fired, the advanced fleet and the sweep that follows make a combat frame. */
  lemma CombatFrameOf(s: GameState, geo: Geometry, dt: real, wave: int, before: Arena, after: Arena,
                      gone: bool, shots: seq<Projectile>, armed: Arena)
    requires before.walls == {} ==> shots == []
    requires before.walls != {} ==> ShotsAtWalls(geo, shots, Shooters(s, geo, dt, before.boats), before.walls, wave)
    requires armed == Arena(before.walls, Advanced(s, geo, dt, before.boats), before.projectiles + shots)
    requires (after, gone) == Sweep(armed, dt, |armed.projectiles|)
    ensures CombatFrame(s, geo, dt, wave, before, after, gone)
  {
  }

  /** The second half of `updateCombat(dt)`: with the boats moved and their shots
      appended to the projectiles of `before`, the projectile loop completes the
      frame, reports the last wall falling exactly when it does, and leaves walls,
      fleet and projectiles no larger. */
  method SweepVolley(s: GameState, geo: Geometry, dt: real, ghost before: Arena)
    returns (gone: bool)
    requires s.wallTiles == before.walls && s.boats == Advanced(s, geo, dt, before.boats)
    requires |s.projectiles| >= |before.projectiles| && s.projectiles[..|before.projectiles|] == before.projectiles
    requires before.walls == {} ==> s.projectiles == before.projectiles
    requires before.walls != {} ==>
      ShotsAtWalls(geo, s.projectiles[|before.projectiles|..], Shooters(s, geo, dt, before.boats), before.walls, s.wave)
    modifies s`wallTiles, s`boats, s`projectiles, s`courtyardRegions, s`courtyardSet
    ensures CombatFrame(s, geo, dt, s.wave, before, ArenaOf(s), gone)
    ensures gone <==> before.walls != {} && s.wallTiles == {}
    ensures !gone ==> forall k :: 0 <= k < |s.projectiles| ==> InFlight(s.projectiles[k])
    ensures s.wallTiles <= before.walls && |s.boats| <= |before.boats|
    ensures HpPositive(before.boats) ==> HpPositive(s.boats)
    ensures old(s.CourtyardsCurrent()) ==> s.CourtyardsCurrent()
  {
    ghost var shots := s.projectiles[|before.projectiles|..];
    assert s.projectiles == before.projectiles + shots;
    AdvancedKeepsHp(s, geo, dt, before.boats);
    ghost var armed := ArenaOf(s);
    gone := UpdateProjectiles(s, dt);
    SweepFacts(armed, dt, |armed.projectiles|);
    CombatFrameOf(s, geo, dt, s.wave, before, ArenaOf(s), gone, shots, armed);
  }

  /** `updateCombat(dt)`: the boats move and fire, then the projectiles fly. When
      the last wall falls the step stops there and reports it, and the fleet is
      never reported destroyed then; otherwise the fleet is destroyed exactly when
      no boat is left. Walls only go, the fleet only shrinks and keeps its hit
      points positive, the courtyards stay current, and after a full step every
      projectile left is in flight. */
  method UpdateCombat(s: GameState, rng: Rng, geo: Geometry, dt: real) returns (r: CombatResult)
    requires rng.Valid()
    modifies s`wallTiles, s`boats, s`projectiles, s`courtyardRegions, s`courtyardSet, rng
    ensures rng.Valid()
    ensures r.wallsGone ==> !r.allDestroyed
    ensures r.wallsGone <==> s.wallTiles == {} && old(s.wallTiles) != {}
    ensures !r.wallsGone ==> (r.allDestroyed <==> s.boats == [])
    ensures !r.wallsGone ==> forall k :: 0 <= k < |s.projectiles| ==> InFlight(s.projectiles[k])
    ensures s.wallTiles <= old(s.wallTiles) && |s.boats| <= |old(s.boats)|
    ensures old(HpPositive(s.boats)) ==> HpPositive(s.boats)
    ensures old(s.CourtyardsCurrent()) ==> s.CourtyardsCurrent()
    ensures CombatFrame(s, geo, dt, s.wave, old(ArenaOf(s)), ArenaOf(s), r.wallsGone)
    ensures rng.seed == if old(s.wallTiles) == {} then old(rng.seed)
                        else SeedAfter(old(rng.seed), |Shooters(s, geo, dt, old(s.boats))|)
  {
    ghost var before := ArenaOf(s);
    MoveBoats(s, rng, geo, dt);
    var gone := SweepVolley(s, geo, dt, before);
    if gone {
      return CombatResult(false, true);
    }
    return CombatResult(|s.boats| == 0, false);
  }

  /** Advancing the fleet keeps every boat's hit points. */
  lemma AdvancedKeepsHp(s: GameState, geo: Geometry, dt: real, bs: seq<Boat>)
    ensures |Advanced(s, geo, dt, bs)| == |bs|
    ensures HpPositive(bs) ==> HpPositive(Advanced(s, geo, dt, bs))
  {
    var r := Advanced(s, geo, dt, bs);
    forall c | c in r && c.Enemy? && HpPositive(bs) ensures c.hp > 0 {
      var k :| 0 <= k < |r| && r[k] == c;
      AdvanceKeeps(s, geo, dt, bs[k]);
      assert bs[k] in bs;
    }
  }
}
