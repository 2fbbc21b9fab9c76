/** What src/enclosure.js computes, stated without the algorithm: the tiles reachable
    from the grid boundary through non-wall tiles, the enclosed land that is left,
    its 4-connected components, and the courtyard layout (components of at least
    MIN_TILES tiles, largest first) that `recomputeCourtyards` stores. */
module Regions {
  import opened Grid

  /** MIN_TILES of src/enclosure.js: smaller pockets are not courtyards. */
  const MinTiles: int := 6

  datatype Bounds = Bounds(minX: int, maxX: int, minY: int, maxY: int)

  /** A labelled region: its tiles in the order the labelling BFS dequeued them. */
  datatype Region = Region(tiles: seq<Tile>, bounds: Bounds)

  /** A walk: a non-empty sequence of tiles of S, each adjacent to the next. */
  ghost predicate IsWalk(p: seq<Tile>, S: set<Tile>)
  {
    && |p| > 0
    && (forall i :: 0 <= i < |p| ==> p[i] in S)
    && (forall i :: 0 <= i < |p| - 1 ==> Adjacent(p[i], p[i + 1]))
  }

  /** b can be reached from a by 4-neighbour steps that never leave S. */
  ghost predicate Linked(S: set<Tile>, a: Tile, b: Tile)
  {
    exists p :: IsWalk(p, S) && p[0] == a && p[|p| - 1] == b
  }

  /** The tiles the flood fill is seeded from: the four edges of the grid. */
  predicate OnBoundary(t: Tile)
  {
    InGrid(t) && (t.0 == 0 || t.0 == W - 1 || t.1 == 0 || t.1 == H - 1)
  }

  /** The tiles the flood fill may enter: water and land alike, but no wall. */
  function OpenTiles(walls: set<Tile>): set<Tile>
  {
    GridTiles() - walls
  }

  /** Reachable from the outside: linked through open tiles to a boundary tile. */
  ghost predicate Reachable(walls: set<Tile>, t: Tile)
  {
    exists b :: OnBoundary(b) && Linked(OpenTiles(walls), b, t)
  }

  /** Enclosed land: in the grid, land, not a wall and not reachable from the outside. */
  ghost function Enclosed(walls: set<Tile>, land: set<Tile>): set<Tile>
  {
    set t | t in land && InGrid(t) && t !in walls && !Reachable(walls, t)
  }

  /** The 4-connected component of a within S. */
  ghost function Component(S: set<Tile>, a: Tile): set<Tile>
  {
    set b | b in S && Linked(S, a, b)
  }

  /** No step leads from C to a tile of S outside C. */
  ghost predicate ClosedIn(C: set<Tile>, S: set<Tile>)
  {
    forall u, v :: u in C && v in S && Adjacent(u, v) ==> v in C
  }

  /** The running minimum and maximum of src/enclosure.js:112-115, over tiles in order. */
  function BoundsOf(tiles: seq<Tile>): Bounds
    requires |tiles| > 0
  {
    var t := tiles[|tiles| - 1];
    if |tiles| == 1 then Bounds(t.0, t.0, t.1, t.1)
    else
      var b := BoundsOf(tiles[..|tiles| - 1]);
      Bounds(if t.0 < b.minX then t.0 else b.minX,
             if t.0 > b.maxX then t.0 else b.maxX,
             if t.1 < b.minY then t.1 else b.minY,
             if t.1 > b.maxY then t.1 else b.maxY)
  }

  /** One labelled region of the enclosed set S: its tiles, without repetition, are
      exactly the component of its first tile, and its bounds are their hull. */
  ghost predicate IsRegion(r: Region, S: set<Tile>)
  {
    && |r.tiles| > 0
    && Distinct(r.tiles)
    && r.tiles[0] in S
    && Elems(r.tiles) == Component(S, r.tiles[0])
    && r.bounds == BoundsOf(r.tiles)
  }

  /** t is a tile of one of the regions. */
  predicate InSomeRegion(regions: seq<Region>, t: Tile)
  {
    exists i :: 0 <= i < |regions| && t in regions[i].tiles
  }

  /** The regions of a set S of enclosed tiles: every component of S with at least
      MinTiles tiles appears, as one region, once, and the regions are ordered by
      non-increasing size. */
  ghost predicate IsLayoutOf(regions: seq<Region>, S: set<Tile>)
  {
    && (forall i :: 0 <= i < |regions| ==> LargeRegionAt(regions, i, S))
    && (forall i, j :: 0 <= i < j < |regions| ==> ApartAt(regions, i, j))
    && (forall t :: t in S && |Component(S, t)| >= MinTiles ==> InSomeRegion(regions, t))
    && (forall i, j :: 0 <= i < j < |regions| ==> OrderedAt(regions, i, j))
  }
  /** Region i of the sequence is a region of S with at least MinTiles tiles. */
  ghost predicate LargeRegionAt(regions: seq<Region>, i: int, S: set<Tile>)
    requires 0 <= i < |regions|
  {
    IsRegion(regions[i], S) && |regions[i].tiles| >= MinTiles
  }

  /** Regions i and j share no tile. */
  predicate ApartAt(regions: seq<Region>, i: int, j: int)
    requires 0 <= i < |regions| && 0 <= j < |regions|
  {
    Elems(regions[i].tiles) !! Elems(regions[j].tiles)
  }

  /** Region i has at least as many tiles as region j. */
  predicate OrderedAt(regions: seq<Region>, i: int, j: int)
    requires 0 <= i < |regions| && 0 <= j < |regions|
  {
    |regions[i].tiles| >= |regions[j].tiles|
  }

  /** The value `recomputeCourtyards` stores in `courtyardRegions`: the layout of the
      enclosed land. */
  ghost predicate IsCourtyardLayout(regions: seq<Region>, walls: set<Tile>, land: set<Tile>)
  {
    IsLayoutOf(regions, Enclosed(walls, land))
  }

  /** The union of the tiles of all regions (what `rebuildCourtyardSet` collects). */
  function TilesOf(regions: seq<Region>): set<Tile>
  {
    set i, t | 0 <= i < |regions| && t in regions[i].tiles :: t
  }

  /** The regions as a set of tile sets: order and tile order forgotten. */
  ghost function RegionSets(regions: seq<Region>): set<set<Tile>>
  {
    set i | 0 <= i < |regions| :: Elems(regions[i].tiles)
  }

  // ---------------------------------------------------------------------------
  // Walks

  lemma LinkedRefl(S: set<Tile>, a: Tile)
    requires a in S
    ensures Linked(S, a, a)
  {
    assert IsWalk([a], S);
  }

  lemma LinkedStep(S: set<Tile>, a: Tile, b: Tile, c: Tile)
    requires Linked(S, a, b) && c in S && Adjacent(b, c)
    ensures Linked(S, a, c)
  {
    var p :| IsWalk(p, S) && p[0] == a && p[|p| - 1] == b;
    var q := p + [c];
    assert IsWalk(q, S);
  }

  lemma LinkedEnds(S: set<Tile>, a: Tile, b: Tile)
    requires Linked(S, a, b)
    ensures a in S && b in S
  {
    var p :| IsWalk(p, S) && p[0] == a && p[|p| - 1] == b;
  }

  lemma LinkedSymmetric(S: set<Tile>, a: Tile, b: Tile)
    requires Linked(S, a, b)
    ensures Linked(S, b, a)
  {
    var p :| IsWalk(p, S) && p[0] == a && p[|p| - 1] == b;
    var q := seq(|p|, i requires 0 <= i < |p| => p[|p| - 1 - i]);
    forall i | 0 <= i < |q| - 1 ensures Adjacent(q[i], q[i + 1]) {
      AdjacentSymmetric(p[|p| - 2 - i], p[|p| - 1 - i]);
    }
    assert IsWalk(q, S);
  }

  lemma LinkedTransitive(S: set<Tile>, a: Tile, b: Tile, c: Tile)
    requires Linked(S, a, b) && Linked(S, b, c)
    ensures Linked(S, a, c)
  {
    var p :| IsWalk(p, S) && p[0] == a && p[|p| - 1] == b;
    var q :| IsWalk(q, S) && q[0] == b && q[|q| - 1] == c;
    var r := p + q[1..];
    forall i | 0 <= i < |r| - 1 ensures Adjacent(r[i], r[i + 1]) {
      if i < |p| - 1 {
        assert r[i] == p[i] && r[i + 1] == p[i + 1];
      } else {
        assert r[i] == q[i - |p| + 1] && r[i + 1] == q[i - |p| + 2];
      }
    }
    assert IsWalk(r, S);
  }

  /** A walk that starts in a set closed under steps within S stays in that set. */
  lemma {:induction false} WalkStaysIn(p: seq<Tile>, S: set<Tile>, C: set<Tile>)
    requires IsWalk(p, S) && p[0] in C && ClosedIn(C, S)
    ensures p[|p| - 1] in C
  {
    if |p| > 1 {
      var q := p[..|p| - 1];
      assert IsWalk(q, S);
      WalkStaysIn(q, S, C);
      assert Adjacent(p[|p| - 2], p[|p| - 1]);
    }
  }

  /** A set that contains a, is linked from a within S and is closed within S is
      exactly the component of a: the BFS result characterisation. */
  lemma ClosedLinkedIsComponent(C: set<Tile>, S: set<Tile>, a: Tile)
    requires C <= S && a in C && ClosedIn(C, S)
    requires forall u :: u in C ==> Linked(S, a, u)
    ensures C == Component(S, a)
  {
    forall b | b in Component(S, a) ensures b in C {
      var p :| IsWalk(p, S) && p[0] == a && p[|p| - 1] == b;
      WalkStaysIn(p, S, C);
    }
  }

  /** Components partition S: a member's component is its own component. */
  lemma SameComponent(S: set<Tile>, a: Tile, b: Tile)
    requires b in Component(S, a)
    ensures Component(S, b) == Component(S, a)
  {
    LinkedSymmetric(S, a, b);
    forall u | u in Component(S, b) ensures u in Component(S, a) {
      LinkedTransitive(S, a, b, u);
    }
    forall u | u in Component(S, a) ensures u in Component(S, b) {
      LinkedTransitive(S, b, a, u);
    }
  }

  /** Reachability is closed under a step into an in-grid non-wall tile. */
  lemma ReachableStep(walls: set<Tile>, a: Tile, b: Tile)
    requires Reachable(walls, a) && Adjacent(a, b) && InGrid(b) && b !in walls
    ensures Reachable(walls, b)
  {
    var s :| OnBoundary(s) && Linked(OpenTiles(walls), s, a);
    LinkedStep(OpenTiles(walls), s, a, b);
  }

  /** Every non-wall boundary tile is reachable. */
  lemma BoundaryReachable(walls: set<Tile>, b: Tile)
    requires OnBoundary(b) && b !in walls
    ensures Reachable(walls, b)
  {
    LinkedRefl(OpenTiles(walls), b);
  }

  /** A set of open tiles that holds every non-wall boundary tile and is closed under
      steps between open tiles holds every reachable tile. */
  lemma ClosedHoldsReachable(walls: set<Tile>, R: set<Tile>, t: Tile)
    requires forall b :: OnBoundary(b) && b !in walls ==> b in R
    requires ClosedIn(R, OpenTiles(walls))
    requires Reachable(walls, t)
    ensures t in R
  {
    var s :| OnBoundary(s) && Linked(OpenTiles(walls), s, t);
    var p :| IsWalk(p, OpenTiles(walls)) && p[0] == s && p[|p| - 1] == t;
    WalkStaysIn(p, OpenTiles(walls), R);
  }

  // ---------------------------------------------------------------------------
  // Bounds

  /** The bounds of a region are the minimum and maximum of its coordinates. */
  lemma {:induction false} BoundsOfIsHull(tiles: seq<Tile>)
    requires |tiles| > 0
    ensures var b := BoundsOf(tiles);
      && (forall t :: t in tiles ==> b.minX <= t.0 <= b.maxX && b.minY <= t.1 <= b.maxY)
      && (exists t :: t in tiles && t.0 == b.minX)
      && (exists t :: t in tiles && t.0 == b.maxX)
      && (exists t :: t in tiles && t.1 == b.minY)
      && (exists t :: t in tiles && t.1 == b.maxY)
  {
    var t := tiles[|tiles| - 1];
    if |tiles| > 1 {
      var p := tiles[..|tiles| - 1];
      BoundsOfIsHull(p);
      assert forall u :: u in tiles ==> u in p || u == t;
      var b := BoundsOf(p);
      var m :| m in p && m.0 == b.minX;
      assert m in tiles;
      var n :| n in p && n.0 == b.maxX;
      assert n in tiles;
      var o :| o in p && o.1 == b.minY;
      assert o in tiles;
      var q :| q in p && q.1 == b.maxY;
      assert q in tiles;
    }
  }

  // ---------------------------------------------------------------------------
  // The layout

  /** A tile lies in some courtyard region iff it is enclosed land whose component
      has at least MinTiles tiles. */
  lemma LayoutMembership(regions: seq<Region>, walls: set<Tile>, land: set<Tile>, t: Tile)
    requires IsCourtyardLayout(regions, walls, land)
    ensures t in TilesOf(regions) <==>
      (t in land && InGrid(t) && t !in walls && !Reachable(walls, t)
       && |Component(Enclosed(walls, land), t)| >= MinTiles)
  {
    var S := Enclosed(walls, land);
    if t in TilesOf(regions) {
      var i :| 0 <= i < |regions| && t in regions[i].tiles;
      assert LargeRegionAt(regions, i, S);
      var r := regions[i];
      assert t in Component(S, r.tiles[0]);
      SameComponent(S, r.tiles[0], t);
      DistinctCard(r.tiles);
    }
  }

  /** Courtyard regions are determined by the walls and the land alone: any two
      layouts for the same walls and land have the same regions as tile sets and the
      same courtyard tiles (only the order of equal-sized regions may differ). */
  lemma LayoutUnique(a: seq<Region>, b: seq<Region>, walls: set<Tile>, land: set<Tile>)
    requires IsCourtyardLayout(a, walls, land) && IsCourtyardLayout(b, walls, land)
    ensures RegionSets(a) == RegionSets(b)
    ensures TilesOf(a) == TilesOf(b)
  {
    LayoutSetsIncluded(a, b, walls, land);
    LayoutSetsIncluded(b, a, walls, land);
    forall t ensures t in TilesOf(a) <==> t in TilesOf(b) {
      LayoutMembership(a, walls, land, t);
      LayoutMembership(b, walls, land, t);
    }
  }

  /** A large component of S is one of the regions of a layout of S. */
  lemma LayoutHolds(regions: seq<Region>, S: set<Tile>, t: Tile)
    requires IsLayoutOf(regions, S)
    requires t in S && |Component(S, t)| >= MinTiles
    ensures Component(S, t) in RegionSets(regions)
  {
    assert InSomeRegion(regions, t);
    var j :| 0 <= j < |regions| && t in regions[j].tiles;
    assert LargeRegionAt(regions, j, S);
    var r := regions[j];
    assert t in Component(S, r.tiles[0]);
    SameComponent(S, r.tiles[0], t);
    assert Elems(r.tiles) in RegionSets(regions);
  }

  /** Each region of a layout of S is a large component of S. */
  lemma LayoutRegionIsLarge(regions: seq<Region>, S: set<Tile>, i: int)
    requires IsLayoutOf(regions, S) && 0 <= i < |regions|
    ensures LargeRegionAt(regions, i, S)
    ensures regions[i].tiles[0] in S
    ensures Elems(regions[i].tiles) == Component(S, regions[i].tiles[0])
    ensures |Component(S, regions[i].tiles[0])| >= MinTiles
  {
    assert LargeRegionAt(regions, i, S);
    DistinctCard(regions[i].tiles);
  }

  lemma LayoutSetsIncluded(a: seq<Region>, b: seq<Region>, walls: set<Tile>, land: set<Tile>)
    requires IsCourtyardLayout(a, walls, land) && IsCourtyardLayout(b, walls, land)
    ensures RegionSets(a) <= RegionSets(b)
  {
    var S := Enclosed(walls, land);
    forall X | X in RegionSets(a) ensures X in RegionSets(b) {
      var i :| 0 <= i < |a| && X == Elems(a[i].tiles);
      LayoutRegionIsLarge(a, S, i);
      LayoutHolds(b, S, a[i].tiles[0]);
    }
  }

  /** With no walls every grid tile is reachable (down its column from the top edge),
      so nothing is enclosed and the empty layout is the courtyard layout. */
  lemma NoWallsNoCourtyards(land: set<Tile>)
    ensures Enclosed({}, land) == {}
    ensures IsCourtyardLayout([], {}, land)
  {
    forall t | t in land && InGrid(t) ensures Reachable({}, t) {
      var p := seq(t.1 + 1, i requires 0 <= i <= t.1 => (t.0, i));
      assert forall i :: 0 <= i < |p| ==> p[i] in GridTiles();
      assert IsWalk(p, OpenTiles({}));
      assert OnBoundary(p[0]);
      assert Linked(OpenTiles({}), p[0], t);
    }
  }
}
