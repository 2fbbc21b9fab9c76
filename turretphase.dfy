/** ChatGptRampart/src/turretPhase.js: turret footprints, the count of empty
    courtyard tiles and the two caps derived from it, the hover test, and placing
    and erasing turrets. */
module TurretPhase {
  import opened Grid
  import opened Regions
  import opened State
  import opened Courtyard

  const TilesPerTurret: int := 20
  const MaxTurretsPerWaveCap: int := 4
  /** Empty tiles per turret of the total cap. */
  const TilesPerTotalTurret: int := 6

  // ---------------------------------------------------------------------------
  // Footprints

  /** `turretCells(x, y, dir)`: the anchor and the tile to its right when dir is 0,
      the tile below it otherwise. */
  function TurretCells(x: int, y: int, dir: int): (cells: seq<Tile>)
    ensures |cells| == 2 && cells[0] == (x, y) && cells[0] != cells[1]
    ensures Adjacent(cells[0], cells[1])
    ensures cells[1] == (x + 1, y) <==> dir == 0
    ensures cells[1] == (x, y + 1) <==> dir != 0
  {
    if dir == 0 then [(x, y), (x + 1, y)] else [(x, y), (x, y + 1)]
  }

  function Footprint(t: Turret): seq<Tile>
  {
    TurretCells(t.x, t.y, t.dir)
  }

  /** The tiles covered by the turrets (what `buildTurretOccupiedSet` collects). */
  function Occupied(ts: seq<Turret>): set<Tile>
  {
    if |ts| == 0 then {} else Occupied(ts[..|ts| - 1]) + Elems(Footprint(ts[|ts| - 1]))
  }

  /** A tile is occupied iff it lies in the footprint of one of the turrets. */
  lemma {:induction false} OccupiedMembership(ts: seq<Turret>, c: Tile)
    ensures c in Occupied(ts) <==> exists i :: 0 <= i < |ts| && c in Footprint(ts[i])
  {
    if |ts| > 0 {
      var init := ts[..|ts| - 1];
      OccupiedMembership(init, c);
      if c in Occupied(init) {
        var i :| 0 <= i < |init| && c in Footprint(init[i]);
        assert ts[i] == init[i];
      }
      if exists i :: 0 <= i < |ts| && c in Footprint(ts[i]) {
        var i :| 0 <= i < |ts| && c in Footprint(ts[i]);
        if i < |ts| - 1 {
          assert init[i] == ts[i];
        }
      }
    }
  }

  /** Turret footprints do not overlap. */
  predicate TurretsApart(ts: seq<Turret>)
  {
    forall i, j :: 0 <= i < j < |ts| ==> Elems(Footprint(ts[i])) !! Elems(Footprint(ts[j]))
  }

  /** `buildTurretOccupiedSet()`: one pass over the turrets. */
  method BuildTurretOccupiedSet(s: GameState) returns (occ: set<Tile>)
    ensures occ == Occupied(s.turrets)
  {
    occ := {};
    var ts := s.turrets;
    for i := 0 to |ts|
      invariant occ == Occupied(ts[..i])
    {
      assert ts[..i + 1][..i] == ts[..i];
      var cells := TurretCells(ts[i].x, ts[i].y, ts[i].dir);
      occ := occ + {cells[0], cells[1]};
    }
    assert ts[..|ts|] == ts;
  }

  /** `isTurretOccupied(tx, ty)`: stops at the first turret covering the tile. */
  method IsTurretOccupied(s: GameState, tx: int, ty: int) returns (b: bool)
    ensures b <==> (tx, ty) in Occupied(s.turrets)
  {
    var ts := s.turrets;
    for i := 0 to |ts|
      invariant (tx, ty) !in Occupied(ts[..i])
    {
      assert ts[..i + 1][..i] == ts[..i];
      var cells := TurretCells(ts[i].x, ts[i].y, ts[i].dir);
      if cells[0] == (tx, ty) || cells[1] == (tx, ty) {
        assert (tx, ty) in Occupied(ts[..i + 1]);
        OccupiedMembership(ts[..i + 1], (tx, ty));
        OccupiedMembership(ts, (tx, ty));
        var k :| 0 <= k < i + 1 && (tx, ty) in Footprint(ts[..i + 1][k]);
        assert ts[k] == ts[..i + 1][k];
        return true;
      }
    }
    assert ts[..|ts|] == ts;
    return false;
  }

  // ---------------------------------------------------------------------------
  // Empty tiles and the caps

  /** The courtyard tiles that hold neither a wall nor a turret. */
  function EmptyTiles(courtyard: set<Tile>, walls: set<Tile>, ts: seq<Turret>): set<Tile>
  {
    courtyard - walls - Occupied(ts)
  }

  function EmptyCount(s: GameState): nat
    reads s`courtyardSet, s`wallTiles, s`turrets
  {
    |EmptyTiles(s.courtyardSet, s.wallTiles, s.turrets)|
  }

  /** There are no empty tiles without a courtyard, and never more than courtyard
      tiles. */
  lemma EmptyCountBounds(courtyard: set<Tile>, walls: set<Tile>, ts: seq<Turret>)
    ensures |EmptyTiles(courtyard, walls, ts)| <= |courtyard|
    ensures courtyard == {} ==> |EmptyTiles(courtyard, walls, ts)| == 0
    ensures |EmptyTiles(courtyard, walls, ts)| == |courtyard| <==> courtyard !! (walls + Occupied(ts))
  {
    var e := EmptyTiles(courtyard, walls, ts);
    assert e <= courtyard;
    if !(courtyard !! (walls + Occupied(ts))) {
      var c :| c in courtyard && c in walls + Occupied(ts);
      assert e <= courtyard - {c};
      assert |e| < |courtyard|;
    } else {
      assert e == courtyard;
    }
  }

  /** `countEmptyCourtyardTiles()`: zero for an empty courtyard, otherwise one pass
      over the courtyard skipping walls and turret cells. The set is walked in an
      arbitrary order: the count does not depend on it. */
  method CountEmptyCourtyardTiles(s: GameState) returns (n: int)
    ensures n == EmptyCount(s)
  {
    if |s.courtyardSet| == 0 {
      return 0;
    }
    var occ := BuildTurretOccupiedSet(s);
    var walls, courtyard := s.wallTiles, s.courtyardSet;
    var rest, seen := courtyard, {};
    n := 0;
    while rest != {}
      invariant rest + seen == courtyard && rest !! seen
      invariant n == |seen - walls - occ|
      decreases |rest|
    {
      var k :| k in rest;
      if k !in walls && k !in occ {
        n := n + 1;
        assert (seen + {k}) - walls - occ == (seen - walls - occ) + {k};
      } else {
        assert (seen + {k}) - walls - occ == seen - walls - occ;
      }
      rest, seen := rest - {k}, seen + {k};
    }
    assert seen == courtyard;
  }

  /** The per-wave cap: one turret plus one per 20 empty tiles, at most four. */
  function PerWaveCap(empty: int): int
  {
    var v := 1 + empty / TilesPerTurret;
    if MaxTurretsPerWaveCap < v then MaxTurretsPerWaveCap else v
  }

  /** The total cap: one turret per six empty tiles, at least one. */
  function TotalCap(empty: int): int
  {
    var v := empty / TilesPerTotalTurret;
    if 1 > v then 1 else v
  }

  /** The per-wave cap lies in [1, 4] and grows with the empty count; 20 more empty
      tiles raise it by one until it reaches 4. */
  lemma PerWaveCapBounds(e: int, f: int)
    requires 0 <= e <= f
    ensures 1 <= PerWaveCap(e) <= MaxTurretsPerWaveCap
    ensures PerWaveCap(e) <= PerWaveCap(f)
    ensures PerWaveCap(e) < MaxTurretsPerWaveCap ==> PerWaveCap(e + TilesPerTurret) == PerWaveCap(e) + 1
    ensures e >= 60 ==> PerWaveCap(e) == MaxTurretsPerWaveCap
  {
    assert e / 20 <= f / 20;
    assert (e + 20) / 20 == e / 20 + 1;
  }

  /** The total cap is at least one, grows with the empty count, and allows one
      turret per six empty tiles. */
  lemma TotalCapBounds(e: int, f: int)
    requires 0 <= e <= f
    ensures 1 <= TotalCap(e) <= TotalCap(f)
    ensures TotalCap(e) * TilesPerTotalTurret <= e || TotalCap(e) == 1
    ensures e < 12 ==> TotalCap(e) == 1
  {
    assert e / 6 <= f / 6;
  }

  method MaxTurretsThisWave(s: GameState) returns (m: int)
    ensures m == PerWaveCap(EmptyCount(s)) && 1 <= m <= MaxTurretsPerWaveCap
  {
    var empty := CountEmptyCourtyardTiles(s);
    m := PerWaveCap(empty);
    PerWaveCapBounds(empty, empty);
  }

  method MaxTotalTurretsForCourtyard(s: GameState) returns (m: int)
    ensures m == TotalCap(EmptyCount(s)) && m >= 1
  {
    var empty := CountEmptyCourtyardTiles(s);
    m := TotalCap(empty);
    TotalCapBounds(empty, empty);
  }

  /** Neither cap is reached. */
  predicate CapsOpen(s: GameState)
    reads s`courtyardSet, s`wallTiles, s`turrets, s`turretsPlacedThisWave
  {
    s.turretsPlacedThisWave < PerWaveCap(EmptyCount(s)) && |s.turrets| < TotalCap(EmptyCount(s))
  }

  /** A cell a new turret may cover: on the grid, in the courtyard, not a wall and
      not under a turret. */
  predicate FreeCourtyardCell(s: GameState, c: Tile)
    reads s`courtyardSet, s`wallTiles, s`turrets
  {
    InGrid(c) && c in s.courtyardSet && c !in s.wallTiles && c !in Occupied(s.turrets)
  }

  /** The validity `computeHover` reports for a turret anchored at (ax, ay). */
  predicate TurretFits(s: GameState, ax: int, ay: int)
    reads s`courtyardSet, s`wallTiles, s`turrets, s`turretsPlacedThisWave, s`turretDir
  {
    var cells := TurretCells(ax, ay, s.turretDir);
    CapsOpen(s) && FreeCourtyardCell(s, cells[0]) && FreeCourtyardCell(s, cells[1])
  }

  /** The hover field is what `setHover` would compute at its anchor now. */
  predicate HoverCurrent(s: GameState)
    reads s`courtyardSet, s`wallTiles, s`turrets, s`turretsPlacedThisWave, s`turretDir, s`hover
  {
    s.hover == Hover(s.hover.x, s.hover.y, TurretFits(s, s.hover.x, s.hover.y),
                     TurretCells(s.hover.x, s.hover.y, s.turretDir))
  }

  /** The hover is anchored at (x, y) and current. */
  predicate HoverAt(s: GameState, x: int, y: int)
    reads s`courtyardSet, s`wallTiles, s`turrets, s`turretsPlacedThisWave, s`turretDir, s`hover
  {
    s.hover.x == x && s.hover.y == y && HoverCurrent(s)
  }

  /** `computeHover(tx, ty)`: the footprint for the current orientation and whether
      a turret may go there. */
  method ComputeHover(s: GameState, ax: int, ay: int) returns (cells: seq<Tile>, valid: bool)
    ensures cells == TurretCells(ax, ay, s.turretDir)
    ensures valid <==> TurretFits(s, ax, ay)
  {
    var dir := s.turretDir;
    cells := TurretCells(ax, ay, dir);
    valid := true;
    var maxThisWave := MaxTurretsThisWave(s);
    if s.turretsPlacedThisWave >= maxThisWave {
      valid := false;
    }
    var maxTotal := MaxTotalTurretsForCourtyard(s);
    if |s.turrets| >= maxTotal {
      valid := false;
    }
    for i := 0 to 2
      invariant valid ==> CapsOpen(s) && forall j :: 0 <= j < i ==> FreeCourtyardCell(s, cells[j])
      invariant !valid ==> !TurretFits(s, ax, ay)
      invariant valid && i == 2 ==> TurretFits(s, ax, ay)
    {
      var c := cells[i];
      if c.0 < 0 || c.1 < 0 || c.0 > W - 1 || c.1 > H - 1 {
        valid := false;
        break;
      }
      if c !in s.courtyardSet {
        valid := false;
        break;
      }
      if c in s.wallTiles {
        valid := false;
        break;
      }
      var occupied := IsTurretOccupied(s, c.0, c.1);
      if occupied {
        valid := false;
        break;
      }
    }
  }

  /** `setHover(tx, ty)`. */
  method SetHover(s: GameState, tx: int, ty: int)
    modifies s`hover
    ensures s.hover == Hover(tx, ty, TurretFits(s, tx, ty), TurretCells(tx, ty, s.turretDir))
    ensures HoverCurrent(s)
  {
    var cells, valid := ComputeHover(s, tx, ty);
    s.hover := Hover(tx, ty, valid, cells);
  }

  /** Placing is allowed now: the hover is flagged valid and both caps, evaluated
      again on the current state, are open. */
  predicate PlacementGo(s: GameState)
    reads s`courtyardSet, s`wallTiles, s`turrets, s`turretsPlacedThisWave, s`hover
  {
    s.hover.valid && CapsOpen(s)
  }

  lemma OccupiedSnoc(ts: seq<Turret>, t: Turret)
    ensures Occupied(ts + [t]) == Occupied(ts) + Elems(Footprint(t))
  {
    assert (ts + [t])[..|ts|] == ts;
  }

  /** A turret whose cells are free joins the others without overlap. */
  lemma ApartSnoc(ts: seq<Turret>, t: Turret)
    requires TurretsApart(ts)
    requires Elems(Footprint(t)) !! Occupied(ts)
    ensures TurretsApart(ts + [t])
  {
    var u := ts + [t];
    forall i, j | 0 <= i < j < |u| ensures Elems(Footprint(u[i])) !! Elems(Footprint(u[j])) {
      if j == |ts| {
        forall c | c in Footprint(u[i]) ensures c in Occupied(ts) {
          OccupiedMembership(ts, c);
          assert c in Footprint(ts[i]);
        }
      } else {
        assert u[i] == ts[i] && u[j] == ts[j];
      }
    }
  }

  /** `placeAtHover()`: nothing unless the hover is flagged valid and both caps are
      still open; then one turret of life 3, placed this wave, is appended at the
      hover anchor, the per-wave counter goes up by one, the courtyards are
      recomputed (they come out as before: turrets are not walls) and the hover
      validity is recomputed at the same anchor. The hover flag is trusted: when it
      is current, the new turret covers free courtyard cells only, so footprints stay
      apart. */
  method PlaceAtHover(s: GameState)
    modifies s`turrets, s`turretsPlacedThisWave, s`courtyardRegions, s`courtyardSet, s`hover
    ensures !old(PlacementGo(s)) ==> TurretsUntouched(s)
    ensures old(PlacementGo(s)) ==> TurretAdded(s)
    ensures old(HoverCurrent(s)) && old(TurretsApart(s.turrets)) ==> TurretsApart(s.turrets)
  {
    if !s.hover.valid {
      return;
    }
    var maxThisWave := MaxTurretsThisWave(s);
    var maxTotal := MaxTotalTurretsForCourtyard(s);
    if s.turretsPlacedThisWave >= maxThisWave {
      return;
    }
    if |s.turrets| >= maxTotal {
      return;
    }
    AddTurret(s);
  }

  /** No turret field changed. */
  twostate predicate TurretsUntouched(s: GameState)
    reads s`turrets, s`turretsPlacedThisWave, s`courtyardRegions, s`courtyardSet, s`hover
  {
    && s.turrets == old(s.turrets) && s.turretsPlacedThisWave == old(s.turretsPlacedThisWave)
    && s.courtyardRegions == old(s.courtyardRegions) && s.courtyardSet == old(s.courtyardSet)
    && s.hover == old(s.hover)
  }

  /** One turret of life 3, placed this wave, was appended at the old hover anchor;
      the per-wave counter went up by one; the courtyards and the hover at the same
      anchor were recomputed. */
  twostate predicate TurretAdded(s: GameState)
    reads s`turrets, s`turretsPlacedThisWave, s`courtyardRegions, s`courtyardSet, s`hover,
          s`wallTiles, s`turretDir, s`wave
  {
    && s.turrets == old(s.turrets) + [Turret(old(s.hover.x), old(s.hover.y), s.turretDir, 3, s.wave)]
    && s.turretsPlacedThisWave == old(s.turretsPlacedThisWave) + 1
    && s.Refreshed(old(s.CourtyardsCurrent()), old(s.courtyardSet), old(s.courtyardRegions))
    && HoverAt(s, old(s.hover.x), old(s.hover.y))
  }

  /** The part of `placeAtHover` after its checks: push the turret, count it,
      refresh the courtyards and the hover. */
  method AddTurret(s: GameState)
    modifies s`turrets, s`turretsPlacedThisWave, s`courtyardRegions, s`courtyardSet, s`hover
    ensures TurretAdded(s)
    ensures old(HoverCurrent(s) && s.hover.valid && TurretsApart(s.turrets)) ==> TurretsApart(s.turrets)
  {
    PushTurret(s);
    ghost var after := s.turrets;
    RefreshAndHover(s);
    assert s.turrets == after;
  }

  /** Push the turret at the hover anchor and count it. */
  method PushTurret(s: GameState)
    modifies s`turrets, s`turretsPlacedThisWave
    ensures s.turrets == old(s.turrets) + [Turret(s.hover.x, s.hover.y, s.turretDir, 3, s.wave)]
    ensures s.turretsPlacedThisWave == old(s.turretsPlacedThisWave) + 1
    ensures old(TurretFits(s, s.hover.x, s.hover.y) && TurretsApart(s.turrets)) ==> TurretsApart(s.turrets)
  {
    ghost var before := s.turrets;
    ghost var fits := TurretFits(s, s.hover.x, s.hover.y);
    var t := Turret(s.hover.x, s.hover.y, s.turretDir, 3, s.wave);
    if fits && TurretsApart(before) {
      assert Footprint(t) == TurretCells(s.hover.x, s.hover.y, s.turretDir);
      ApartSnoc(before, t);
    }
    s.turrets := s.turrets + [t];
    s.turretsPlacedThisWave := s.turretsPlacedThisWave + 1;
  }

  /** The tail of `placeAtHover` and `eraseAtAnchor`: recompute the courtyards and
      the hover validity at the same anchor. */
  method RefreshAndHover(s: GameState)
    modifies s`courtyardRegions, s`courtyardSet, s`hover
    ensures s.Refreshed(old(s.CourtyardsCurrent()), old(s.courtyardSet), old(s.courtyardRegions))
    ensures HoverAt(s, old(s.hover.x), old(s.hover.y))
  {
    RefreshCourtyards(s);
    var cells, valid := ComputeHover(s, s.hover.x, s.hover.y);
    s.hover := s.hover.(valid := valid, cells := cells);
  }

  /** Index of the first turret whose footprint covers (x, y); |ts| when none does. */
  function FirstCovering(ts: seq<Turret>, x: int, y: int): (k: int)
    ensures 0 <= k <= |ts|
    ensures k < |ts| ==> (x, y) in Footprint(ts[k])
    ensures forall j :: 0 <= j < k ==> (x, y) !in Footprint(ts[j])
    decreases |ts|
  {
    if |ts| == 0 then 0
    else if (x, y) in Footprint(ts[0]) then 0
    else 1 + FirstCovering(ts[1..], x, y)
  }

  /** The turrets with entry k dropped (all of them when k is past the end). */
  function Without(ts: seq<Turret>, k: int): seq<Turret>
    requires 0 <= k <= |ts|
  {
    if k < |ts| then ts[..k] + ts[k + 1..] else ts
  }

  /** The per-wave counter after erasing entry k: one less, not below zero, when a
      turret placed this wave is erased during the turret phase. */
  function CounterAfterErase(s: GameState, ts: seq<Turret>, k: int, placed: int): int
    requires 0 <= k <= |ts|
    reads s`phase, s`wave
  {
    if k < |ts| && s.phase == TurretPlacement && ts[k].placedWave == s.wave then
      (if placed - 1 > 0 then placed - 1 else 0)
    else placed
  }

  /** `eraseAtAnchor()`: nothing when the hover is off the grid to the left or top;
      otherwise the first turret covering the hover tile, if any, is removed (the
      per-wave counter drops by one, not below zero, when it was placed this wave
      during the turret phase), the courtyards are recomputed and the hover
      validity is recomputed at the same anchor. */
  method EraseAtAnchor(s: GameState)
    modifies s`turrets, s`turretsPlacedThisWave, s`courtyardRegions, s`courtyardSet, s`hover
    ensures old(s.hover.x) < 0 || old(s.hover.y) < 0 ==>
      s.turrets == old(s.turrets) && s.turretsPlacedThisWave == old(s.turretsPlacedThisWave)
      && s.courtyardRegions == old(s.courtyardRegions) && s.courtyardSet == old(s.courtyardSet)
      && s.hover == old(s.hover)
    ensures old(s.hover.x) >= 0 && old(s.hover.y) >= 0 ==>
      var k := FirstCovering(old(s.turrets), old(s.hover.x), old(s.hover.y));
      && s.turrets == Without(old(s.turrets), k)
      && s.turretsPlacedThisWave == CounterAfterErase(s, old(s.turrets), k, old(s.turretsPlacedThisWave))
      && s.Refreshed(old(s.CourtyardsCurrent()), old(s.courtyardSet), old(s.courtyardRegions))
      && HoverAt(s, old(s.hover.x), old(s.hover.y))
  {
    var h := s.hover;
    if h.x < 0 || h.y < 0 {
      return;
    }
    RemoveFirstCovering(s, h.x, h.y);
    RefreshAndHover(s);
  }

  /** The loop of `eraseAtAnchor`: remove the first turret covering (x, y). */
  method RemoveFirstCovering(s: GameState, x: int, y: int)
    modifies s`turrets, s`turretsPlacedThisWave
    ensures var k := FirstCovering(old(s.turrets), x, y);
      && s.turrets == Without(old(s.turrets), k)
      && s.turretsPlacedThisWave == CounterAfterErase(s, old(s.turrets), k, old(s.turretsPlacedThisWave))
  {
    ghost var ts := s.turrets;
    ghost var k := FirstCovering(ts, x, y);
    var i := 0;
    while i < |s.turrets|
      invariant 0 <= i <= |ts| && s.turrets == ts && i <= k
      invariant s.turretsPlacedThisWave == old(s.turretsPlacedThisWave)
    {
      var t := s.turrets[i];
      var cells := TurretCells(t.x, t.y, t.dir);
      if cells[0] == (x, y) || cells[1] == (x, y) {
        assert k == i;
        if s.phase == TurretPlacement && t.placedWave == s.wave {
          var dec := s.turretsPlacedThisWave - 1;
          s.turretsPlacedThisWave := if 0 > dec then 0 else dec;
        }
        s.turrets := s.turrets[..i] + s.turrets[i + 1..];
        return;
      }
      assert k != i;
      i := i + 1;
    }
  }

  /** Erasing keeps the other turrets, in order, and removes at most one: exactly
      one when some turret covers the tile. */
  lemma EraseKeepsOthers(ts: seq<Turret>, x: int, y: int)
    ensures var k := FirstCovering(ts, x, y);
      && |Without(ts, k)| == (if k < |ts| then |ts| - 1 else |ts|)
      && (forall j :: 0 <= j < |Without(ts, k)| ==> Without(ts, k)[j] == if j < k then ts[j] else ts[j + 1])
      && (k < |ts| <==> (x, y) in Occupied(ts))
  {
    CoveredIffOccupied(ts, x, y);
  }

  /** Some turret covers the tile exactly when the tile is occupied. */
  lemma CoveredIffOccupied(ts: seq<Turret>, x: int, y: int)
    ensures FirstCovering(ts, x, y) < |ts| <==> (x, y) in Occupied(ts)
  {
    var k := FirstCovering(ts, x, y);
    OccupiedMembership(ts, (x, y));
    if (x, y) in Occupied(ts) {
      var i :| 0 <= i < |ts| && (x, y) in Footprint(ts[i]);
      assert k <= i;
    }
  }
}
