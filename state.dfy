/** ChatGptRampart/src/state.js: the one record every phase of the game reads and
    updates, with the island geometry it is created with. */
module State {
  import opened Grid
  import opened Regions
  import opened Pieces
  import opened Utils

  /** The `phase` strings "LOBBY", "BUILD", "TURRET", "COMBAT" and "GAMEOVER". */
  datatype Phase = Lobby | Build | TurretPlacement | Combat | GameOver

  /** The hover ghost: the anchor tile under the cursor, whether the current piece or
      turret fits there, and the cells it would cover. */
  datatype Hover = Hover(x: int, y: int, valid: bool, cells: seq<Tile>)

  const NoHover: Hover := Hover(-1, -1, false, [])

  /** A turret: its anchor tile, its orientation (0 horizontal, anything else
      vertical), the waves it has left, and the wave it was placed in. */
  datatype Turret = Turret(x: int, y: int, dir: int, life: int, placedWave: int)

  /** A boat. `generateLayout` pushes scenery boats with a position, heading and bob
      phase only; `spawnEnemiesForWave` pushes enemies that also move, have hit
      points and a shot cooldown. */
  datatype Boat =
    | Scenery(x: real, y: real, dir: real, bob: real)
    | Enemy(x: real, y: real, vx: real, vy: real, dir: real, bob: real, hp: int,
            shotCd: real, shotInterval: real)

  /** The `type` of a projectile: "enemy" or "turret". */
  datatype ShotKind = EnemyShot | TurretShot

  datatype Projectile = Projectile(x: real, y: real, vx: real, vy: real, life: real, kind: ShotKind)

  /** The floating-point functions the game calls, taken as parameters: `Math.cos`,
      `Math.sin`, `Math.hypot`, `Math.atan2` and `Math.PI`. */
  datatype Geometry = Geometry(cos: real -> real, sin: real -> real, hypot: (real, real) -> real,
                               atan2: (real, real) -> real, pi: real)

  /** `isLandTile` of src/enclosure.js and src/buildPhase.js: the centre of the tile
      lies in the island ellipse shrunk to 98%. */
  predicate IsLandTile(cx: real, cy: real, rx: real, ry: real, t: Tile)
    requires rx > 0.0 && ry > 0.0
  {
    var px := (t.0 * TileSize) as real + TileSize as real / 2.0;
    var py := (t.1 * TileSize) as real + TileSize as real / 2.0;
    InsideEllipse(px, py, cx, cy, rx * 0.98, ry * 0.98)
  }

  /** The land mask: the grid tiles that are land. */
  function LandTiles(cx: real, cy: real, rx: real, ry: real): (land: set<Tile>)
    requires rx > 0.0 && ry > 0.0
    ensures forall t :: t in land <==> InGrid(t) && IsLandTile(cx, cy, rx, ry, t)
  {
    set x, y | 0 <= x < W && 0 <= y < H && IsLandTile(cx, cy, rx, ry, (x, y)) :: (x, y)
  }

  /** The state record `createState` returns. */
  class GameState {
    /** The island: its centre at 52% of the buffer, radii of 37% and 30% of its
        sides (no code assigns them again), and the land tiles they give. */
    const cx: real := InternalW as real * 0.52
    const cy: real := InternalH as real * 0.52
    const rx: real := InternalW as real * 0.37
    const ry: real := InternalH as real * 0.30
    const land: set<Tile> := LandTiles(cx, cy, rx, ry)

    var wallTiles: set<Tile>
    var courtyardRegions: seq<Region>
    var courtyardSet: set<Tile>
    var occupiedCourtyardSet: set<Tile>
    var boats: seq<Boat>
    var piece: Piece
    var hover: Hover
    var turrets: seq<Turret>
    var turretDir: int
    var aimX: real
    var aimY: real
    var turretsPlacedThisWave: int
    var phase: Phase
    var wave: int
    var timeLeft: real
    var timerRunning: bool
    var gameOver: bool
    var projectiles: seq<Projectile>
    var bannerActive: bool
    var bannerY: real
    var bannerText: string
    var renderSeed: int

    /** `createState()`: everything empty, the lobby, wave 1 and a 10-second clock. */
    constructor ()
      ensures wallTiles == {} && courtyardRegions == [] && courtyardSet == {}
      ensures occupiedCourtyardSet == {} && boats == [] && turrets == [] && projectiles == []
      ensures piece == Piece(T, 0) && hover == NoHover
      ensures turretDir == 0 && aimX == 0.0 && aimY == 0.0 && turretsPlacedThisWave == 0
      ensures phase == Lobby && wave == 1 && timeLeft == 10.0
      ensures !timerRunning && !gameOver && !bannerActive && bannerY == 0.0 && bannerText == ""
      ensures renderSeed == 1
      ensures CourtyardsCurrent()
    {
      wallTiles := {};
      courtyardRegions := [];
      courtyardSet := {};
      occupiedCourtyardSet := {};
      boats := [];
      piece := Piece(T, 0);
      hover := NoHover;
      turrets := [];
      turretDir := 0;
      aimX := 0.0;
      aimY := 0.0;
      turretsPlacedThisWave := 0;
      phase := Lobby;
      wave := 1;
      timeLeft := 10.0;
      timerRunning := false;
      gameOver := false;
      projectiles := [];
      bannerActive := false;
      bannerY := 0.0;
      bannerText := "";
      renderSeed := 1;
      new;
      NoWallsNoCourtyards(land);
    }

    /** The courtyard fields agree with the walls: the regions are the courtyard
        layout of the enclosed land, and the courtyard set is their union. */
    ghost predicate CourtyardsCurrent()
      reads this`courtyardRegions, this`wallTiles, this`courtyardSet
    {
      && IsCourtyardLayout(courtyardRegions, wallTiles, land)
      && courtyardSet == TilesOf(courtyardRegions)
    }

    /** The courtyard fields were just recomputed: they agree with the walls, and if
        they already agreed before (`wasCurrent`, with the courtyard set `oldSet` and
        the regions `oldRegions`) while the walls stayed put, nothing moved: the
        same courtyard tiles and the same regions as tile sets. */
    ghost predicate Refreshed(wasCurrent: bool, oldSet: set<Tile>, oldRegions: seq<Region>)
      reads this`courtyardRegions, this`wallTiles, this`courtyardSet
    {
      && CourtyardsCurrent()
      && (wasCurrent ==> courtyardSet == oldSet && RegionSets(courtyardRegions) == RegionSets(oldRegions))
    }
  }
}
