# FortressGame simulation core in Dafny

This project models the simulation core of FortressGame, a Rampart-style fortress game played on a
48 × 36 tile grid. It covers these parts:

- **Walls and courtyards.** Players build walls from tetromino pieces on an elliptical island. Land
  that the walls cut off from the edge of the map becomes courtyard. The flood fill starts from the
  grid boundary. The labelling pass keeps components of at least six tiles and sorts them by size.
- **Turrets.** Turrets are dominoes placed on empty courtyard tiles. Two caps limit them: one per
  wave and one in total.
- **Combat.** Enemy boats fire at random walls and turrets fire back. When the last wall falls, the
  game is over.
- **The phase machine.** LOBBY → BUILD → TURRET → COMBAT → BUILD of the next wave, or GAMEOVER.
  Every playing phase has a 30-second countdown, held back by an entry banner that scrolls down the
  field.
- **The frame step.** `loop(t)` does the banner, the turret safety net, combat and the countdown,
  in that order.

There is one Dafny module per source file, plus three modules for what that code computes stated
without its algorithm:

- `Grid` holds the grid and its four directions.
- `Regions` defines reachability, enclosed land, components and the courtyard layout.
- `State` holds the state record: a class whose fields the operations update in place.

## How the model is built

- **Tile keys.** The source stores tiles under `"x,y"` string keys. The model stores integer pairs.
  `Utils.KeyInjective` shows that no information is lost.
- **Land.** The floating-point ellipse test is evaluated once per tile into the constant
  `GameState.land`. The island never moves, so this value never changes.
- **Courtyards.** The breadth-first search of `recomputeCourtyards` is imperative Dafny. It keeps
  the source's `array2` masks, its `qx`/`qy` queue arrays and its loops. It is proved to produce
  exactly the layout that `Regions.IsCourtyardLayout` describes.
- **Random numbers.** Each RNG is a class with a mutable `seed`. Every draw is tied to the seed
  sequence `Utils.SeedAfter`.
- **Floating-point helpers.** `cos`, `sin`, `atan2`, `hypot` and π are passed in through the
  `Geometry` parameter. The model does not interpret them.
- **The phase machine.** The fields the phase machine owns form the value `Flow.Clock`. Each
  `flow.js` operation is a method whose new clock is a named pure function of the old one. The
  invariant `Flow.Coherent` holds in every phase:
  - waves count from 1;
  - GAMEOVER holds exactly when the game-over flag is set;
  - a running banner holds the countdown back;
  - the time shown is never negative.

## Model

| member | source | states |
|---|---|---|
| Grid.AdjacentIsStep | src/enclosure.js:4-9 | Two tiles are 4-neighbours exactly when one is a single step of one of the four DIRS entries from the other |
| Regions.BoundaryReachable | src/enclosure.js:56-64 | Every boundary tile of the grid that is not a wall is reachable from the outside |
| Regions.ReachableStep | src/enclosure.js:66-78 | Reachability is closed under a 4-neighbour step into an in-bounds tile that is not a wall |
| Regions.BoundsOfIsHull | src/enclosure.js:100-126 | A region's bounds are exactly the minimum and maximum of its tiles' x and y, each attained by some tile |
| Regions.LayoutMembership | src/enclosure.js:80-132 | A tile lies in some courtyard region iff it is land on the grid, not a wall, not reachable from the boundary, and its enclosed component has at least 6 tiles |
| Regions.LayoutRegionIsLarge | src/enclosure.js:91-132 | Each region of a layout is exactly one 4-connected component of the enclosed land, with at least 6 tiles |
| Regions.LayoutUnique | src/enclosure.js:28-135 | Two layouts for the same walls and land have the same regions as tile sets and the same courtyard tiles, so recomputing with nothing changed gives the same courtyards |
| Regions.NoWallsNoCourtyards | src/enclosure.js:56-89 | With no walls, every tile is reachable, nothing is enclosed, and the only layout is empty |
| Enclosure.FloodFromBoundary | src/enclosure.js:42-78 | The reach mask is exactly the set of tiles reachable from the boundary through non-wall tiles (so no wall is marked), and the queue tail equals its size, never more than W·H |
| Enclosure.FillLand | src/enclosure.js:34-40 | The land mask holds exactly the island's land tiles |
| Enclosure.TrySeed | src/enclosure.js:48-54 | Seeding keeps the flood invariant, only grows the reached set, and marks a boundary tile iff it is not a wall |
| Enclosure.SeedRows | src/enclosure.js:57-60 | Every open tile of the top and bottom rows is reached |
| Enclosure.SeedColumns | src/enclosure.js:61-64 | After the side columns, every open boundary tile is reached |
| Enclosure.VisitNeighbour | src/enclosure.js:69-77 | The neighbour in direction k is reached afterwards if it is open; the queue only grows at its tail |
| Enclosure.ExpandReach | src/enclosure.js:69-77 | All four open neighbours of the dequeued tile are reached afterwards |
| Enclosure.DrainStep | src/enclosure.js:67-78 | After one dequeue, every tile up to the queue head has all its open neighbours reached |
| Enclosure.DrainReach | src/enclosure.js:67-78 | When the queue is empty, every queued tile has all its open neighbours reached |
| Enclosure.MarkInside | src/enclosure.js:80-89 | The inside mask is exactly the enclosed land: land, not a wall, not reached |
| Enclosure.VisitInside | src/enclosure.js:116-123 | The neighbour in direction k, if inside, is in the region afterwards; the region queue only grows at its tail |
| Enclosure.ExpandInside | src/enclosure.js:107-123 | All four inside neighbours of the dequeued tile are in the region afterwards |
| Enclosure.GrowRegion | src/enclosure.js:97-126 | One labelling BFS collects distinct tiles starting at the seed, marks them visited, and computes bounds equal to their hull |
| Enclosure.LabelRegions | src/enclosure.js:91-128 | The labelled tiles are exactly the inside tiles; each label is one whole component with distinct tiles and hull bounds, and labels are pairwise disjoint |
| Enclosure.KeepLarge | src/enclosure.js:130-132 | The filter keeps exactly the regions with at least 6 tiles |
| Enclosure.SortBySize | src/enclosure.js:134 | The sorted sequence is a permutation of its input (same multiset of regions) |
| Enclosure.InsertBySize | src/enclosure.js:134 | Inserting a region adds exactly that region to the multiset |
| Enclosure.SortBySizeSorted | src/enclosure.js:134 | The sorted regions are in non-increasing order of size |
| Enclosure.SortBySizeDisjoint | src/enclosure.js:134 | Sorting keeps the regions pairwise disjoint |
| Enclosure.FilterSortIsLayout | src/enclosure.js:130-134 | Filtering and sorting the labelled components gives the courtyard layout |
| Enclosure.ComputeCourtyards | src/enclosure.js:28-134 | The regions computed for the walls and the island are the courtyard layout: every enclosed component of at least 6 tiles, exactly once, disjoint, largest first, with hull bounds |
| Enclosure.RecomputeCourtyards | src/enclosure.js:28-136 | `courtyardRegions` becomes the courtyard layout of the current walls; nothing else changes |
| Courtyard.RebuildCourtyardSet | ChatGptRampart/src/courtyard.js:4-14 | `courtyardSet` becomes exactly the union of the region tiles, discarding its old contents; only the set is written, so repeating the call changes nothing |
| Courtyard.RefreshCourtyards | ChatGptRampart/src/courtyard.js:4-14 | Recompute plus rebuild: the courtyard fields agree with the walls; if they already agreed, neither the courtyard tiles nor the regions (as sets) change |
| TurretPhase.TurretCells | ChatGptRampart/src/turretPhase.js:10-13 | Two distinct adjacent cells: the anchor, then its right neighbour iff dir is 0, otherwise the tile below |
| TurretPhase.OccupiedMembership | ChatGptRampart/src/turretPhase.js:15-21 | A tile is occupied iff it lies in the footprint of some turret |
| TurretPhase.BuildTurretOccupiedSet | ChatGptRampart/src/turretPhase.js:15-21 | The loop collects exactly the union of the turret footprints |
| TurretPhase.IsTurretOccupied | ChatGptRampart/src/turretPhase.js:56-62 | True iff the tile is covered by some turret |
| TurretPhase.EmptyCountBounds | ChatGptRampart/src/turretPhase.js:23-37 | The empty count is at most the courtyard size, 0 for an empty courtyard, and equals the courtyard size iff no courtyard tile holds a wall or a turret |
| TurretPhase.CountEmptyCourtyardTiles | ChatGptRampart/src/turretPhase.js:23-37 | The loop counts exactly the courtyard tiles that are neither walls nor turret-occupied |
| TurretPhase.PerWaveCapBounds | ChatGptRampart/src/turretPhase.js:39-47 | The per-wave cap min(4, 1 + empty div 20) lies in [1, 4], is monotone, grows by one per 20 empty tiles, and is 4 from 60 empty tiles on |
| TurretPhase.TotalCapBounds | ChatGptRampart/src/turretPhase.js:49-54 | The total cap max(1, empty div 6) is at least 1 and monotone, is 1 below 12 tiles, and beyond the floor of 1 never allows more than one turret per 6 empty tiles |
| TurretPhase.MaxTurretsThisWave | ChatGptRampart/src/turretPhase.js:44-47 | Returns the per-wave cap of the current empty count, in [1, 4] |
| TurretPhase.MaxTotalTurretsForCourtyard | ChatGptRampart/src/turretPhase.js:51-54 | Returns the total cap of the current empty count, at least 1 |
| TurretPhase.ComputeHover | ChatGptRampart/src/turretPhase.js:64-89 | Valid iff neither cap is reached and both footprint cells are on the grid, in the courtyard, not walls, and not covered by a turret |
| TurretPhase.SetHover | ChatGptRampart/src/turretPhase.js:91-94 | The hover becomes the anchor with the footprint and validity computed there |
| TurretPhase.PlaceAtHover | ChatGptRampart/src/turretPhase.js:96-114 | Changes nothing unless the hover is valid and both caps, re-evaluated now, are open. Otherwise it appends exactly one turret at the hover anchor (life 3, this wave), adds one to the per-wave counter, refreshes the courtyards and recomputes the hover. From a current hover, turret footprints stay apart |
| TurretPhase.AddTurret | ChatGptRampart/src/turretPhase.js:104-113 | Exactly one turret at the hover anchor is appended, the counter goes up by one, the courtyards and hover are refreshed; a free valid hover keeps footprints apart |
| TurretPhase.PushTurret | ChatGptRampart/src/turretPhase.js:104-107 | Exactly one turret at the hover anchor (life 3, this wave) is appended and the counter goes up by one; a turret that fits keeps footprints apart |
| TurretPhase.RefreshAndHover | ChatGptRampart/src/turretPhase.js:109-113 | The courtyards agree with the walls (unchanged as tile sets if they already agreed) and the hover is recomputed at the same anchor |
| TurretPhase.FirstCovering | ChatGptRampart/src/turretPhase.js:120-124 | The index of the first turret whose footprint covers the tile, or the count when none does |
| TurretPhase.EraseAtAnchor | ChatGptRampart/src/turretPhase.js:116-138 | A no-op for a negative anchor. Otherwise it removes only the first covering turret, if any, and lowers the counter (never below 0) only in TURRET for a turret of this wave. The courtyards are refreshed (unchanged as tile sets if they were current) and the hover is recomputed |
| TurretPhase.RemoveFirstCovering | ChatGptRampart/src/turretPhase.js:120-131 | Only the first covering turret goes, and the counter follows the rule of the turret phase |
| TurretPhase.EraseKeepsOthers | ChatGptRampart/src/turretPhase.js:120-131 | Erasing removes at most one turret, keeps the others in order, and removes none iff no turret covers the tile |
| TurretPhase.CoveredIffOccupied | ChatGptRampart/src/turretPhase.js:120-124 | The search finds a covering turret iff the tile is occupied |
| Pieces.Normalize | src/pieces.js:16-20 | The loop computes the normal form of the offsets |
| Pieces.MinX | src/pieces.js:17-18 | The least x of the offsets: below or equal to every x and attained |
| Pieces.MinY | src/pieces.js:17-18 | The least y of the offsets: below or equal to every y and attained |
| Pieces.JsRem | src/pieces.js:30 | JavaScript's truncating `%`: strictly between −b and b, and equal to the modulus for non-negative a |
| Pieces.NormalizedProperties | src/pieces.js:16-20 | Normalising keeps the length and all relative positions, makes every coordinate non-negative, and puts the least x and least y at 0 |
| Pieces.NormalizedShift | src/pieces.js:16-20 | Normalising forgets translations |
| Pieces.Rotate90 | src/pieces.js:22-26 | Computes (x, y) → (y, −x) followed by normalisation |
| Pieces.RotatedDistinct | src/pieces.js:22-26 | A rotation keeps the offsets distinct and keeps their number |
| Pieces.GetOffsets | src/pieces.js:28-33 | The loop turns the base shape RotIndex(rot) times |
| Pieces.RotIndexIsMod | src/pieces.js:30 | The rotation count `((rot % 4) + 4) % 4` is rot modulo 4, negative rot included |
| Pieces.OffsetsPeriodic | src/pieces.js:28-33 | getOffsets(t, r) equals getOffsets(t, r + 4) |
| Pieces.FourTurnsIdentity | src/pieces.js:4-12 | Four quarter turns bring every base shape back to itself, in order |
| Pieces.BaseNormalized | src/pieces.js:4-12 | Every base shape has four distinct non-negative cells whose least x and least y are 0 |
| Pieces.OffsetsShape | src/pieces.js:4-33 | Every type in every rotation has four distinct non-negative cells |
| Pieces.NextPiece | src/pieces.js:35-38 | One draw of int(0, 6) picks the type; rot is 0 and the type is one of the seven |
| Pieces.RotatePiece | src/pieces.js:40-42 | Keeps the type, sets rot to (rot + 1) mod 4 for non-negative rot, and shows the next rotation's offsets |
| BuildPhase.NewPiece | src/buildPhase.js:6-8 | The piece is the next draw of the piece generator |
| BuildPhase.IsLandTileAt | src/buildPhase.js:10-14 | True iff the tile centre is inside the island ellipse shrunk to 98% |
| BuildPhase.PieceCellsShape | src/buildPhase.js:20-21 | The cells are the anchor plus each offset of the current rotation: four distinct tiles, none left of or above the anchor |
| BuildPhase.ComputePieceCells | src/buildPhase.js:16-31 | The cells are anchor plus offsets; valid iff every cell is in [0,47]×[0,35], is land, and is not a wall |
| BuildPhase.SetHover | src/buildPhase.js:33-36 | The hover becomes the anchor with the piece cells and validity computed there |
| BuildPhase.CommitGrows | src/buildPhase.js:41 | A piece that fits adds exactly four new walls, all on land inside the grid |
| BuildPhase.PlaceAtHover | src/buildPhase.js:38-50 | A no-op when the hover is invalid. Otherwise the walls become the old walls plus the hover cells, the courtyards agree with them, a new piece is drawn and the hover is recomputed at the same anchor. From a current valid hover exactly four walls are added, and walls stay on land |
| BuildPhase.CommitHover | src/buildPhase.js:41 | The walls become the old walls plus the hover cells |
| BuildPhase.FinishPlacement | src/buildPhase.js:43-49 | The courtyards agree with the walls, a new piece is drawn, and the hover is recomputed at the same anchor |
| BuildPhase.EraseAtHover | src/buildPhase.js:52-63 | A no-op for a negative anchor. Otherwise it removes only the anchor tile from the walls, refreshes the courtyards and recomputes the hover. Walls stay on land |
| WavePrep.ResetFortressForNewGame | src/wavePrep.js:5-33 | Walls, turrets, projectiles, boats, regions and the courtyard set are empty, the counter and turretDir are 0, the hover is cleared, the courtyards agree with no walls, and a new piece is drawn |
| WavePrep.EmptyLayout | src/wavePrep.js:31-32 | With no enclosed land the layout has no region |
| WavePrep.PrepareNextWaveKeepWalls | src/wavePrep.js:35-61 | The walls are untouched and projectiles and boats are emptied. The turrets are aged, the courtyards agree with the walls (and are unchanged if they already agreed), the counter is 0 and a new piece is drawn |
| WavePrep.AgeTurrets | src/wavePrep.js:47-51 | The backward loop leaves exactly the aged turret list |
| WavePrep.AgedMembership | src/wavePrep.js:48-51 | A turret survives ageing iff it had one more life and that life was above 1; every life drops by exactly one |
| WavePrep.AgedLength | src/wavePrep.js:48-51 | Ageing never adds turrets, and keeps them all iff every life was above 1 |
| WavePrep.AgedKeepsApart | src/wavePrep.js:48-51 | Survivors keep their footprints, so turrets that did not overlap still do not |
| WavePrep.TurretLifespan | src/wavePrep.js:48-51 | A turret placed with life 3 survives two preparations and is gone after the third |
| Layout.GenerateLayout | src/layout.js:1-23 | Walls and regions are emptied, the boats are replaced by the six scenery boats drawn from the seed, and renderSeed is the seed after 18 draws |
| Layout.DrawLayoutBoat | src/layout.js:9-19 | One boat takes three draws and is the layout boat for its index |
| Layout.LayoutShape | src/layout.js:2-8 | A layout has exactly six boats and leaves the empty courtyard layout |
| Layout.LayoutBoatRanges | src/layout.js:9-19 | Each layout boat is scenery; its heading is its angle plus π, that angle lies in the boat's sixth of the circle moved on by less than 0.35, and its bob lies in [0, 2π) |
| Flow.StartBanner | src/flow.js:12-17 | The banner is active at −28 with the given text and the timer is stopped; nothing else changes |
| Flow.StartPhaseBanner | src/flow.js:12-17 | The clock becomes StartBanner of the old clock |
| Flow.LobbyClock | src/flow.js:19-31 | LOBBY, wave 1, no game over, timer stopped at 30, no banner, counter 0; coherent |
| Flow.ResetToLobby | src/flow.js:19-39 | The lobby clock; the fortress is cleared and the courtyards are current; with randomize the layout is redrawn from the fresh seed (renderSeed 18 draws on), otherwise renderSeed is kept; a new piece is drawn |
| Flow.EnterLobby | src/flow.js:20-28 | The clock becomes the lobby clock |
| Flow.BuildFreshLayout | src/main.js:46-49 | Walls and regions are emptied, the boats become exactly the six layout boats drawn from the fresh seed reduced to 32 bits, and renderSeed is 18 draws after that seed |
| Flow.RenewFortress | src/flow.js:32-35 | The fortress is cleared with the courtyards current; the layout is redrawn iff randomize; a new piece is drawn |
| Flow.BuildEntry | src/flow.js:41-48 | BUILD with 30 s and its banner; the wave and counter are kept |
| Flow.BeginBuildPhase | src/flow.js:41-48 | The clock becomes BuildEntry of the old clock |
| Flow.TurretEntry | src/flow.js:50-66 | TURRET with 30 s, its banner and counter 0 |
| Flow.BeginTurretPhase | src/flow.js:50-66 | The clock becomes TurretEntry of the old clock |
| Flow.CombatEntry | src/flow.js:68-76 | COMBAT with 30 s and its banner |
| Flow.BeginCombatPhase | src/flow.js:68-76 | The combat clock; the boats are exactly the wave's fleet drawn from the combat generator, all enemies with the wave's hit points, and the generator has advanced by five draws per boat |
| Flow.NextWaveClock | src/flow.js:78-83 | BUILD of wave + 1 with its banner and counter 0; coherent from a coherent running game |
| Flow.EndCombatAndStartNextWave | src/flow.js:78-83 | The wave goes up by exactly 1 and BUILD is entered. Projectiles and boats are gone, turrets are aged, and the courtyards agree with the walls. The piece generator advances one step and the new piece is the type it draws, at rotation 0 |
| Flow.StartClock | src/flow.js:85-99 | Unchanged unless in LOBBY or GAMEOVER; otherwise BUILD of wave 1 with its banner, no game over, counter 0 |
| Flow.StartGame | src/flow.js:85-99 | Does nothing at all outside LOBBY and GAMEOVER. Otherwise it gives the start clock and a cleared fortress; the piece generator moves one step and the piece is the type it draws, at rotation 0; renderSeed is 18 draws after the fresh seed when randomize is set and is kept when it is not |
| Flow.FirstWave | src/flow.js:88-97 | The clock becomes BUILD of wave 1 with no game over, its banner and 30 s |
| Flow.GameOverClock | src/flow.js:101-108 | GAMEOVER with the game-over flag set, timer stopped, banner off |
| Flow.GameOver | src/flow.js:101-108 | The clock becomes GameOverClock of the old clock |
| Flow.ExpiredClock | src/flow.js:110-129 | BUILD without courtyards → GAMEOVER, BUILD with courtyards → TURRET, TURRET → COMBAT, COMBAT → BUILD of wave + 1, anything else unchanged; coherence kept |
| Flow.OnPhaseTimerExpired | src/flow.js:110-129 | The clock becomes ExpiredClock of the old one. TURRET makes the boats exactly the wave's fleet and advances the combat generator five draws per boat. COMBAT ages turrets, empties projectiles and boats, and draws the next piece with one step of the piece generator. Every other case leaves the combat generator, or the turrets, courtyards, projectiles, piece and piece generator, as they were. BUILD and the other phases also keep the boats |
| Flow.BannerDoneClock | src/flow.js:131-138 | In a playing phase of a game still on, the timer starts at 30; otherwise nothing changes |
| Flow.OnBannerFinishedStartTimer | src/flow.js:131-138 | The clock becomes BannerDoneClock of the old clock |
| Flow.WaveCycle | src/flow.js:110-138 | From a coherent BUILD, three expiries, each after its banner clears and the timer starts, go TURRET, COMBAT, then BUILD of the next wave, coherent and with the banner up |
| GameLoop.StepSize | ChatGptRampart/src/gameLoop.js:8 | dt is min(0.05, elapsed / 1000): never above 0.05, non-negative for a non-decreasing clock |
| GameLoop.FrameClock.constructor | ChatGptRampart/src/gameLoop.js:5 | lastT starts at the clock reading |
| GameLoop.ScrollBanner | ChatGptRampart/src/gameLoop.js:12-18 | Without a banner nothing moves. Otherwise bannerY grows by 140·dt; at 288 or more the banner is gone and, in a playing phase of a running game, the timer starts at 30 |
| GameLoop.AdvanceBanner | ChatGptRampart/src/gameLoop.js:12-18 | The clock becomes ScrollBanner of the old clock |
| GameLoop.BannerHoldsCountdown | ChatGptRampart/src/gameLoop.js:12-18 | At the full step, a banner started at −28 is still active after 45 frames, at −28 + 7n, with the timer held |
| GameLoop.BannerClearsAfter46 | ChatGptRampart/src/gameLoop.js:12-18 | At the full step, the 46th frame clears the banner and starts the 30 s timer |
| GameLoop.TurretSafetyNet | ChatGptRampart/src/gameLoop.js:20-31 | Fires iff in TURRET with no banner, the game on and a cap reached; then it gives the combat clock and exactly the wave's fleet, with the combat generator five draws per boat on; otherwise the clock, the boats and the combat generator are unchanged |
| GameLoop.CombatStep | ChatGptRampart/src/gameLoop.js:33-40 | Runs iff in COMBAT with no banner and the game on; otherwise the clock, fortress, fleet, piece and both generators stay. When it runs, walls and boats are those of one combat frame (CombatFrame), and so are the projectiles unless the wave was cleared, which drops them. The combat generator advances one draw per boat that fires. The last wall falling gives the game-over clock. A cleared fleet gives the next wave's BUILD with turrets aged and a freshly drawn piece. Otherwise the clock holds, boats remain, and turrets, piece and piece generator stay |
| GameLoop.Fight | ChatGptRampart/src/gameLoop.js:35-39 | A combat frame that runs, with the results of CombatStep's running case: the combat frame, the combat generator advance, the clock and the fleet. After a cleared wave the piece is freshly drawn; otherwise turrets, piece and piece generator are kept |
| GameLoop.CombatHooks | ChatGptRampart/src/gameLoop.js:36-39 | Walls gone: the game-over clock. A cleared fleet: the countdown stops, and the next wave starts with turrets aged, no boats or projectiles, and a piece drawn by one generator step. Otherwise the clock, projectiles, boats, courtyards, turrets, piece and piece generator all stay; the walls are never touched |
| GameLoop.CountDown | ChatGptRampart/src/gameLoop.js:42-54 | Only a running timer of a game still on moves. It loses dt, or stops at 0 when it runs out, and nothing else changes |
| GameLoop.RunTimer | ChatGptRampart/src/gameLoop.js:42-54 | The clock counts down; on running out it is clamped to 0, stopped, and the expiry transition fires with OnPhaseTimerExpired's per-phase results (fleet and combat generator for TURRET, next wave and piece for COMBAT, everything else kept). Without expiry the boats, projectiles, courtyards, turrets, piece and both generators stay |
| GameLoop.BannerAndNet | ChatGptRampart/src/gameLoop.js:11-31 | A banner still on the field holds the rest of this half; a safety net that fires leaves COMBAT held by its banner; a frame that may fight passes unchanged; outside TURRET the boats and the combat generator are kept |
| GameLoop.FightAndCount | ChatGptRampart/src/gameLoop.js:33-54 | An active banner with a stopped timer holds everything. Walls only fall in COMBAT, at most one wave passes, the last wall ends the game, and staying in COMBAT leaves boats afloat |
| GameLoop.Tick | ChatGptRampart/src/gameLoop.js:7-54 | dt is the capped step and lastT becomes t. One frame keeps the phase invariant and the courtyards' agreement with the walls, and the wave rises by at most one. Walls only fall, and only in a COMBAT frame. A banner still on the field holds the frame. When the safety net fires, combat does not run in the same frame. The last wall falling ends the game, and staying in COMBAT leaves boats afloat |
| CombatPhase.FleetStats | src/combatPhase.js:23-50 | The fleet has 3 + wave boats, each an enemy with the wave's hit points (at least 1) and shot interval, and a first shot delay in [0, interval) |
| CombatPhase.SpawnEnemiesForWave | src/combatPhase.js:23-51 | The boats are replaced by exactly the wave's fleet, five draws per boat |
| CombatPhase.DrawEnemy | src/combatPhase.js:31-49 | One enemy takes five draws and is the fleet's boat for its index |
| CombatPhase.FirstShotDelay | src/combatPhase.js:47 | A draw in [0, 1) gives a delay in [0, interval) |
| CombatPhase.PickRandomWallKey | src/combatPhase.js:53-62 | None iff there are no walls, and then nothing is drawn; otherwise one draw and a member of the walls |
| CombatPhase.Distance | src/combatPhase.js:74 | `hypot(dx, dy) \|\| 1` is never zero |
| CombatPhase.EnemyFireAtWalls | src/combatPhase.js:64-85 | With no walls, no projectile and no draw; otherwise exactly one enemy shot aimed at a wall is appended |
| CombatPhase.TurretFootprintCells | src/combatPhase.js:89-92 | The same footprint as the turret phase's |
| CombatPhase.OnCourtyardIsFootprint | src/combatPhase.js:94-103 | A turret is still on the courtyard iff its whole footprint lies in the courtyard set |
| CombatPhase.TurretIsStillOnCourtyard | src/combatPhase.js:94-103 | True iff the set is non-empty and holds both footprint cells |
| CombatPhase.FireTurretsAt | src/combatPhase.js:105-131 | Appends one turret shot per turret still on the courtyard, in turret order; the turrets are untouched |
| CombatPhase.VolleyShape | src/combatPhase.js:105-131 | A volley has one shot per turret on the courtyard, never more than there are turrets, none for an empty courtyard, all turret shots with life 2 |
| CombatPhase.KeepInBoundsSpec | src/combatPhase.js:139-142 | The edge checks leave a boat within the 6-pixel margins, only flip the signs of its velocity, change nothing else, and leave a boat already inside alone |
| CombatPhase.ReflectTurnsOutward | src/combatPhase.js:151-155 | For a unit normal, the reflection turns an inward velocity outward |
| CombatPhase.AdvanceKeeps | src/combatPhase.js:135-167 | A boat step keeps its kind, hit points and interval and leaves scenery alone; the shot clock reloads to the interval on firing, otherwise loses dt, and stays in (0, interval] |
| CombatPhase.MoveBoats | src/combatPhase.js:135-168 | Every boat advances; the shots appended are one per firing boat, aimed at walls, and there are none with no walls |
| CombatPhase.MoveBoat | src/combatPhase.js:136-167 | Only boat i changes, to its advanced self; it adds one shot aimed at a wall iff it fires and walls remain, drawing once |
| CombatPhase.SailBoat | src/combatPhase.js:136-137 | The boat sails one step along its velocity |
| CombatPhase.ClampBoat | src/combatPhase.js:139-142 | The boat is kept within the margins |
| CombatPhase.BounceBoat | src/combatPhase.js:145-159 | The boat is pushed off land and reflected |
| CombatPhase.AdvancedKeepsHp | src/combatPhase.js:135-168 | The boat loop keeps the number of boats and their positive hit points |
| CombatPhase.ShootersBound | src/combatPhase.js:163-167 | Never more shots than boats; none when no clock runs out |
| CombatPhase.LastHit | src/combatPhase.js:209-221 | The boat struck is the last one in range, scanning downward; no boat above it is in range |
| CombatPhase.FindHit | src/combatPhase.js:209-214 | The downward scan finds exactly LastHit |
| CombatPhase.LastHitUnique | src/combatPhase.js:209-214 | Any index that hits with no hitting boat above it is the one LastHit picks |
| CombatPhase.AfterHitSpec | src/combatPhase.js:215-218 | A hit on an enemy costs the fleet exactly one hit point and removes the boat iff it had 1 left; every boat keeps positive hp; a scenery boat is unaffected |
| CombatPhase.Step | src/combatPhase.js:171-222 | One projectile step leaves every projectile below index i in place, so the downward loop still finds them |
| CombatPhase.StepFacts | src/combatPhase.js:171-222 | A step removes at most one wall; boats and projectiles only go; enemies keep positive hp; the remaining projectiles are in flight |
| CombatPhase.SweepFacts | src/combatPhase.js:171-225 | The sweep only shrinks walls, fleet and projectiles. It stops early exactly when the last wall has just fallen; otherwise walls that stood still stand and every projectile left is in flight |
| CombatPhase.SweepWithoutWalls | src/combatPhase.js:186-205 | With no walls the sweep never stops early |
| CombatPhase.StepProjectile | src/combatPhase.js:172-222 | One pass of the projectile loop is Step; it reports the last wall falling, and the courtyards agree with the walls after a wall breaks |
| CombatPhase.EnemyShotLands | src/combatPhase.js:186-205 | An enemy shot in flight is the step: it breaks the wall under it and is spent, reporting the last wall falling |
| CombatPhase.TurretShotLands | src/combatPhase.js:208-221 | A turret shot in flight is the step: it strikes the last boat in range and is spent, or flies on |
| CombatPhase.UpdateProjectiles | src/combatPhase.js:171-223 | The loop is the sweep over all projectiles, with the courtyards kept current |
| CombatPhase.SweepVolley | src/combatPhase.js:170-226 | With the boats advanced and their shots appended, the projectile loop completes exactly one combat frame, reports the last wall falling iff it does, and only shrinks walls and fleet |
| CombatPhase.UpdateCombat | src/combatPhase.js:133-226 | The new walls, boats and projectiles are exactly one combat frame (CombatFrame): boats advanced, one shot at a wall per boat that fires, then the projectile sweep over old projectiles plus those shots. The combat generator advances one draw per boat that fires (none when no wall stands). Never adds walls or boats. It reports the walls gone iff it broke the last one, and then not a cleared fleet. Otherwise it reports a cleared fleet iff no boat is left and every projectile left is in flight. Enemies keep positive hp |
| GameConstants.EnemyCountGrows | ChatGptRampart/src/gameConstants.js:7 | 3 + w boats: strictly increasing, 4 in wave 1 |
| GameConstants.EnemyHealthBounds | ChatGptRampart/src/gameConstants.js:8 | 1 + floor(w/2) is at least 1, grows by one every second wave, 1 in wave 1 |
| GameConstants.ShotIntervalBounds | ChatGptRampart/src/gameConstants.js:9 | max(1, 2.5 − 0.1w) is never below 1, non-increasing, 2.4 in wave 1, 1 from wave 15 |
| GameConstants.MoveSpeedGrows | ChatGptRampart/src/gameConstants.js:10 | 22 + 3w grows by 3 per wave, 25 in wave 1 |
| GameConstants.ProjectileSpeedBounds | ChatGptRampart/src/gameConstants.js:11 | min(180, 105 + 5w) is at most 180, non-decreasing, 110 in wave 1, 180 from wave 15 |
| Utils.Clamp | ChatGptRampart/src/utils.js:1 | In [a, b] when a ≤ b; v itself when already in range; a below, b above; a when b < a |
| Utils.KeyInjective | ChatGptRampart/src/utils.js:3 | Distinct tiles have distinct "x,y" keys |
| Utils.Key | ChatGptRampart/src/utils.js:3 | The key holds the comma that separates the two numbers |
| Utils.InsideEllipseCentre | ChatGptRampart/src/utils.js:5-9 | The centre is inside, and the test is symmetric about the centre |
| Utils.Uint32 | ChatGptRampart/src/utils.js:28 | `>>> 0` lands in [0, 2^32) and fixes values already there |
| Utils.NextSeed | ChatGptRampart/src/utils.js:31 | The LCG step stays in [0, 2^32) |
| Utils.SeedAfter | ChatGptRampart/src/utils.js:30-33 | The seed after n ≥ 1 draws lies in [0, 2^32) |
| Utils.Unit | ChatGptRampart/src/utils.js:32 | seed / 2^32 lies in [0, 1) |
| Utils.DrawRange | ChatGptRampart/src/utils.js:34-36 | int(a, b) lies in [a, b] when a ≤ b |
| Utils.DrawIsFloor | ChatGptRampart/src/utils.js:34-36 | The integer formula equals a + floor(next() · (b − a + 1)) |
| Utils.Rng.constructor | ChatGptRampart/src/utils.js:27-29 | The seed is reduced to 32 bits; the default is 123456789 |
| Utils.Rng.Next | ChatGptRampart/src/utils.js:30-33 | seed := (seed · 1664525 + 1013904223) mod 2^32, returning seed / 2^32 in [0, 1) |
| Utils.Rng.Int | ChatGptRampart/src/utils.js:34-36 | One step, then the draw in [a, b] |
| Utils.SeedAfterSplit | ChatGptRampart/src/utils.js:26-37 | m draws followed by n draws leave the same seed as m + n draws |
| State.LandTiles | src/enclosure.js:15-19 | The land mask holds exactly the grid tiles whose centre passes the island test |
| State.GameState.constructor | ChatGptRampart/src/state.js:3-50 | LOBBY, wave 1, a 10-second clock, no game over, no timer, no banner, every collection empty, the piece T at rot 0, no hover, turretDir and counter 0, renderSeed 1; the empty courtyards agree with no walls |

## Left out

- Rendering, the DOM and input. `render.js`, `ui.js`, `mapper.js` and `input.js` are not part of this model, nor is the bootstrap in `main.js` beyond `buildFreshLayout`. The UI calls (`setTime`, `setRound`, `setStatus`, `setStartEnabled`) have no effect on the state, so the model omits them. The renderer hand-off and `requestAnimationFrame` at the end of `loop(t)` are left out too.
- Floating-point geometry. `cos`, `sin`, `atan2`, `hypot` and π come in through `Geometry` as uninterpreted functions. The model states positions and velocities only as far as the arithmetic around those calls.
- The land test. The 0.98 ellipse shrink is the `land` constant. The 1.04/1.05 boat land test (`isLandPixel`) is a predicate over reals.
- Environment randomness. `Math.random` and `performance.now` are parameters: `freshSeed` for a new layout generator, `t` for the frame clock.
- Defensive initialisation. The branches that create missing collections cannot fire in the model, because every field always exists.
- The game-over message text and the status-line text. Only the UI displays them.
- The caps that `beginTurretPhase` reads. They only feed the status line, so `Flow.BeginTurretPhase` does not compute them.
- Enclosure.ComputeCourtyards: the source's stable sort keeps equal-sized regions in scan order. The model proves the regions come largest first but does not pin the order among equal sizes. `Regions.LayoutUnique` shows the regions as tile sets are determined anyway.
- CombatPhase.PickRandomWallKey: the source returns the wall at a drawn index in the set's insertion order. The model returns some member of the walls after the same draw, because Dafny sets have no iteration order.
- GameLoop.CombatStep: when the last wall falls, the source calls the game-over hook from inside `updateCombat`. The model makes that call right after `updateCombat` returns, with the same result, because nothing in between reads the phase.
- 32-bit seed arithmetic is written out with `Uint32`. The model does not represent the source's JavaScript doubles elsewhere, and the products stay below 2^53, so the source computes them exactly.
- `makePieceRng` in `src/pieces.js` only calls the generator's constructor, so `Utils.Rng.constructor` covers it.
- The aim point `aimX`/`aimY` is set by input handling, which is not part of this model. `CombatPhase.FireTurretsAt` takes it as a parameter.
- `occupiedCourtyardSet` is only initialised, in `createState`, and no operation in this model writes it.
- Utils.Key: its own contract only says that the key contains the separating comma. `Utils.KeyInjective` states the property the rest of the model relies on.
- CombatPhase.Advance, CombatPhase.AfterHit: a scenery boat has no speed or hit points, so in the source moving one or hitting one would produce NaN fields. The model leaves a scenery boat unchanged in both. The case never arises, because COMBAT holds only the spawned enemies.
- Pieces.RotatePiece: the contract pins `rot` only for non-negative rotations. Only a negative `rot` would make JavaScript's `%` differ, and no operation of the game creates one.
