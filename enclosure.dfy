/** src/enclosure.js: `recomputeCourtyards`, the boundary flood fill and the
    labelling of enclosed land into courtyard regions. The grids of the source
    (`land`, `reach`, `inside`, `visited`, flat Uint8Arrays indexed y*W+x) are
    two-dimensional boolean arrays indexed [x, y]; the queues `qx`/`qy` with their
    head and tail indices are kept as in the source and shared by both searches. */
module Enclosure {
  import opened Grid
  import opened Regions
  import opened State

  // ---------------------------------------------------------------------------
  // Loop bookkeeping

  /** Direction k out of t has been looked at: if it leads into S, it is marked in V. */
  ghost predicate StepDone(S: set<Tile>, V: set<Tile>, t: Tile, k: int)
    requires 0 <= k < 4
  {
    Step(t, k) in S ==> Step(t, k) in V
  }

  /** All four neighbours of t inside S are marked in V. */
  ghost predicate Expanded(S: set<Tile>, V: set<Tile>, t: Tile)
  {
    StepDone(S, V, t, 0) && StepDone(S, V, t, 1) && StepDone(S, V, t, 2) && StepDone(S, V, t, 3)
  }

  lemma StepDoneGrows(S: set<Tile>, V: set<Tile>, V': set<Tile>, t: Tile, k: int)
    requires 0 <= k < 4 && StepDone(S, V, t, k) && V <= V'
    ensures StepDone(S, V', t, k)
  {
  }

  lemma ExpandedClosed(C: set<Tile>, S: set<Tile>)
    requires forall t :: t in C ==> Expanded(S, C, t)
    ensures ClosedIn(C, S)
  {
    forall u, v | u in C && v in S && Adjacent(u, v) ensures v in C {
      AdjacentIsStep(u, v);
      var k :| 0 <= k < 4 && v == Step(u, k);
      assert Expanded(S, C, u);
    }
  }

  lemma ComponentClosed(S: set<Tile>, a: Tile)
    ensures ClosedIn(Component(S, a), S)
  {
    forall u, v | u in Component(S, a) && v in S && Adjacent(u, v) ensures v in Component(S, a) {
      LinkedStep(S, a, u, v);
    }
  }

  ghost predicate MaskIs(m: array2<bool>, S: set<Tile>)
    reads m
  {
    && m.Length0 == W && m.Length1 == H
    && forall x, y :: 0 <= x < W && 0 <= y < H ==> (m[x, y] <==> (x, y) in S)
  }

  /** The tiles reachable from the outside. */
  ghost function ReachSet(walls: set<Tile>): set<Tile>
  {
    set t | t in GridTiles() && Reachable(walls, t)
  }

  /** ReachSet holds every open boundary tile. */
  ghost predicate HoldsOpenBoundary(walls: set<Tile>, RS: set<Tile>)
  {
    forall b :: OnBoundary(b) && b !in walls ==> b in RS
  }

  /** An open step out of ReachSet stays in it. */
  ghost predicate StepClosed(walls: set<Tile>, RS: set<Tile>)
  {
    forall a, k {:trigger Step(a, k) in RS} :: 0 <= k < 4 && a in RS && InGrid(Step(a, k)) && Step(a, k) !in walls ==> Step(a, k) in RS
  }

  lemma ReachSetSeedsAndSteps(walls: set<Tile>)
    ensures HoldsOpenBoundary(walls, ReachSet(walls)) && StepClosed(walls, ReachSet(walls))
  {
    forall b | OnBoundary(b) && b !in walls ensures b in ReachSet(walls) {
      BoundaryReachable(walls, b);
    }
    forall a, k | 0 <= k < 4 && a in ReachSet(walls) && InGrid(Step(a, k)) && Step(a, k) !in walls
      ensures Step(a, k) in ReachSet(walls)
    {
      ReachableStep(walls, a, Step(a, k));
    }
  }

  /** State of the flood fill: the queue holds the reached tiles R, each once,
      `reach` marks exactly R, and every tile of R is open and reachable (in RS). */
  ghost predicate FloodInv(walls: set<Tile>, RS: set<Tile>, reach: array2<bool>, qx: array<int>,
                           qy: array<int>, qt: int, R: set<Tile>, Q: seq<Tile>)
    reads reach, qx, qy
  {
    && qx.Length == W * H && qy.Length == W * H
    && 0 <= qt == |Q| <= W * H
    && (forall i :: 0 <= i < qt ==> Q[i] == (qx[i], qy[i]))
    && Elems(Q) == R && |R| == qt
    && R <= OpenTiles(walls)
    && MaskIs(reach, R)
    && R <= RS
  }

  // ---------------------------------------------------------------------------
  // Land mask

  /** src/enclosure.js:34-40: the land mask, from the island predicate. */
  method FillLand(land: set<Tile>) returns (mask: array2<bool>)
    ensures fresh(mask) && MaskIs(mask, land)
  {
    mask := new bool[W, H]((i, j) => false);
    for y := 0 to H
      invariant mask.Length0 == W && mask.Length1 == H
      invariant forall x', y' :: 0 <= x' < W && 0 <= y' < y ==> (mask[x', y'] <==> (x', y') in land)
    {
      for x := 0 to W
        invariant forall x', y' :: 0 <= x' < W && 0 <= y' < y ==> (mask[x', y'] <==> (x', y') in land)
        invariant forall x' :: 0 <= x' < x ==> (mask[x', y] <==> (x', y) in land)
      {
        mask[x, y] := (x, y) in land;
      }
    }
  }

  // ---------------------------------------------------------------------------
  // Flood fill from the boundary

  /** `trySeed(x, y)`: enqueue a boundary tile unless it is already reached or a wall. */
  method TrySeed(walls: set<Tile>, ghost RS: set<Tile>, reach: array2<bool>, qx: array<int>,
                 qy: array<int>, qt: int, x: int, y: int, ghost R: set<Tile>, ghost Q: seq<Tile>)
    returns (qt': int, ghost R': set<Tile>, ghost Q': seq<Tile>)
    requires FloodInv(walls, RS, reach, qx, qy, qt, R, Q) && qx != qy && HoldsOpenBoundary(walls, RS)
    requires OnBoundary((x, y))
    modifies reach, qx, qy
    ensures FloodInv(walls, RS, reach, qx, qy, qt', R', Q')
    ensures R <= R'
    ensures (x, y) !in walls ==> (x, y) in R'
  {
    if reach[x, y] {
      return qt, R, Q;
    }
    if (x, y) in walls {
      return qt, R, Q;
    }
    MissingTileBound(R, (x, y));
    reach[x, y] := true;
    qx[qt] := x;
    qy[qt] := y;
    qt', R', Q' := qt + 1, R + {(x, y)}, Q + [(x, y)];
  }

  /** Every open boundary tile has been seeded. */
  ghost predicate BoundarySeeded(walls: set<Tile>, R: set<Tile>)
  {
    forall b :: OnBoundary(b) && b !in walls ==> b in R
  }

  /** src/enclosure.js:57-60: seed the top and bottom rows. */
  method SeedRows(walls: set<Tile>, ghost RS: set<Tile>, reach: array2<bool>, qx: array<int>, qy: array<int>)
    returns (qt: int, ghost R: set<Tile>, ghost Q: seq<Tile>)
    requires FloodInv(walls, RS, reach, qx, qy, 0, {}, []) && qx != qy && HoldsOpenBoundary(walls, RS)
    modifies reach, qx, qy
    ensures FloodInv(walls, RS, reach, qx, qy, qt, R, Q)
    ensures forall b :: OnBoundary(b) && b !in walls && (b.1 == 0 || b.1 == H - 1) ==> b in R
  {
    qt, R, Q := 0, {}, [];
    for x := 0 to W
      invariant FloodInv(walls, RS, reach, qx, qy, qt, R, Q)
      invariant forall b :: OnBoundary(b) && b !in walls && (b.1 == 0 || b.1 == H - 1) && b.0 < x ==> b in R
    {
      qt, R, Q := TrySeed(walls, RS, reach, qx, qy, qt, x, 0, R, Q);
      qt, R, Q := TrySeed(walls, RS, reach, qx, qy, qt, x, H - 1, R, Q);
    }
  }

  /** src/enclosure.js:61-64: then the left and right columns. */
  method SeedColumns(walls: set<Tile>, ghost RS: set<Tile>, reach: array2<bool>, qx: array<int>,
                     qy: array<int>, qt: int, ghost R: set<Tile>, ghost Q: seq<Tile>)
    returns (qt': int, ghost R': set<Tile>, ghost Q': seq<Tile>)
    requires FloodInv(walls, RS, reach, qx, qy, qt, R, Q) && qx != qy && HoldsOpenBoundary(walls, RS)
    requires forall b :: OnBoundary(b) && b !in walls && (b.1 == 0 || b.1 == H - 1) ==> b in R
    modifies reach, qx, qy
    ensures FloodInv(walls, RS, reach, qx, qy, qt', R', Q') && BoundarySeeded(walls, R')
  {
    qt', R', Q' := qt, R, Q;
    for y := 0 to H
      invariant FloodInv(walls, RS, reach, qx, qy, qt', R', Q')
      invariant forall b :: OnBoundary(b) && b !in walls && (b.1 == 0 || b.1 == H - 1 || b.1 < y) ==> b in R'
    {
      qt', R', Q' := TrySeed(walls, RS, reach, qx, qy, qt', 0, y, R', Q');
      qt', R', Q' := TrySeed(walls, RS, reach, qx, qy, qt', W - 1, y, R', Q');
    }
  }

  /** One direction out of a dequeued tile (src/enclosure.js:71-76): an in-bounds
      neighbour that is neither reached nor a wall is marked and enqueued. */
  method VisitNeighbour(walls: set<Tile>, ghost RS: set<Tile>, reach: array2<bool>, qx: array<int>,
                        qy: array<int>, qt: int, x: int, y: int, k: int, ghost R: set<Tile>, ghost Q: seq<Tile>)
    returns (qt': int, ghost R': set<Tile>, ghost Q': seq<Tile>)
    requires FloodInv(walls, RS, reach, qx, qy, qt, R, Q) && qx != qy && StepClosed(walls, RS)
    requires (x, y) in R && 0 <= k < 4
    modifies reach, qx, qy
    ensures FloodInv(walls, RS, reach, qx, qy, qt', R', Q')
    ensures R <= R' && |Q| <= |Q'| && Q'[..|Q|] == Q
    ensures StepDone(OpenTiles(walls), R', (x, y), k)
  {
    var nx, ny := x + Dir(k).0, y + Dir(k).1;
    assert (nx, ny) == Step((x, y), k);
    if !InBounds(nx, ny, W, H) || reach[nx, ny] || (nx, ny) in walls {
      return qt, R, Q;
    }
    MissingTileBound(R, (nx, ny));
    reach[nx, ny] := true;
    qx[qt] := nx;
    qy[qt] := ny;
    qt', R', Q' := qt + 1, R + {(nx, ny)}, Q + [(nx, ny)];
  }

  /** One dequeued tile of the BFS of src/enclosure.js:69-77: all four directions. */
  method ExpandReach(walls: set<Tile>, ghost RS: set<Tile>, reach: array2<bool>, qx: array<int>,
                     qy: array<int>, qt: int, x: int, y: int, ghost R: set<Tile>, ghost Q: seq<Tile>)
    returns (qt': int, ghost R': set<Tile>, ghost Q': seq<Tile>)
    requires FloodInv(walls, RS, reach, qx, qy, qt, R, Q) && qx != qy && StepClosed(walls, RS)
    requires (x, y) in R
    modifies reach, qx, qy
    ensures FloodInv(walls, RS, reach, qx, qy, qt', R', Q')
    ensures R <= R' && |Q| <= |Q'| && Q'[..|Q|] == Q
    ensures Expanded(OpenTiles(walls), R', (x, y))
  {
    ghost var S := OpenTiles(walls);
    qt', R', Q' := qt, R, Q;
    for k := 0 to 4
      invariant FloodInv(walls, RS, reach, qx, qy, qt', R', Q')
      invariant R <= R' && |Q| <= |Q'| && Q'[..|Q|] == Q
      invariant forall j :: 0 <= j < k ==> StepDone(S, R', (x, y), j)
    {
      ghost var R0, Q0 := R', Q';
      qt', R', Q' := VisitNeighbour(walls, RS, reach, qx, qy, qt', x, y, k, R', Q');
      assert Q'[..|Q|] == Q0[..|Q|];
      forall j | 0 <= j <= k ensures StepDone(S, R', (x, y), j) {
        if j < k {
          StepDoneGrows(S, R0, R', (x, y), j);
        }
      }
    }
  }

  /** A tile stays expanded as the marked set grows. */
  lemma ExpandedGrows(S: set<Tile>, V: set<Tile>, V': set<Tile>, t: Tile)
    requires Expanded(S, V, t) && V <= V'
    ensures Expanded(S, V', t)
  {
  }

  /** One iteration of the BFS loop of src/enclosure.js:67-78: dequeue entry qh
      and expand it; the entries before it stay expanded. */
  method DrainStep(walls: set<Tile>, ghost RS: set<Tile>, reach: array2<bool>, qx: array<int>,
                   qy: array<int>, qt: int, qh: int, ghost R: set<Tile>, ghost Q: seq<Tile>)
    returns (qt': int, ghost R': set<Tile>, ghost Q': seq<Tile>)
    requires FloodInv(walls, RS, reach, qx, qy, qt, R, Q) && qx != qy && StepClosed(walls, RS)
    requires 0 <= qh < qt
    requires forall i :: 0 <= i < qh ==> Expanded(OpenTiles(walls), R, Q[i])
    modifies reach, qx, qy
    ensures FloodInv(walls, RS, reach, qx, qy, qt', R', Q') && R <= R' && qt <= qt'
    ensures forall i :: 0 <= i <= qh ==> Expanded(OpenTiles(walls), R', Q'[i])
  {
    ghost var S := OpenTiles(walls);
    var x, y := qx[qh], qy[qh];
    qt', R', Q' := ExpandReach(walls, RS, reach, qx, qy, qt, x, y, R, Q);
    forall i | 0 <= i <= qh ensures Expanded(S, R', Q'[i]) {
      assert Q'[i] == Q[i];
      if i < qh {
        ExpandedGrows(S, R, R', Q[i]);
      }
    }
  }

  /** src/enclosure.js:67-78: the BFS loop, run until the queue is drained. */
  method DrainReach(walls: set<Tile>, ghost RS: set<Tile>, reach: array2<bool>, qx: array<int>,
                    qy: array<int>, qt: int, ghost R: set<Tile>, ghost Q: seq<Tile>)
    returns (qt': int, ghost R': set<Tile>, ghost Q': seq<Tile>)
    requires FloodInv(walls, RS, reach, qx, qy, qt, R, Q) && qx != qy && StepClosed(walls, RS)
    requires BoundarySeeded(walls, R)
    modifies reach, qx, qy
    ensures FloodInv(walls, RS, reach, qx, qy, qt', R', Q') && BoundarySeeded(walls, R')
    ensures forall i :: 0 <= i < |Q'| ==> Expanded(OpenTiles(walls), R', Q'[i])
  {
    qt', R', Q' := qt, R, Q;
    var qh := 0;
    while qh < qt'
      invariant FloodInv(walls, RS, reach, qx, qy, qt', R', Q')
      invariant 0 <= qh <= qt' && R <= R'
      invariant forall i :: 0 <= i < qh ==> Expanded(OpenTiles(walls), R', Q'[i])
      decreases W * H - qh
    {
      qt', R', Q' := DrainStep(walls, RS, reach, qx, qy, qt', qh, R', Q');
      qh := qh + 1;
    }
  }

  /** When the queue is drained, the reached set is closed under open steps and so
      holds every tile reachable from the boundary. */
  lemma DrainedFloodIsReachable(walls: set<Tile>, R: set<Tile>, Q: seq<Tile>)
    requires Elems(Q) == R && R <= ReachSet(walls) && BoundarySeeded(walls, R)
    requires R <= OpenTiles(walls)
    requires forall i :: 0 <= i < |Q| ==> Expanded(OpenTiles(walls), R, Q[i])
    ensures R == ReachSet(walls)
  {
    ghost var S := OpenTiles(walls);
    forall t | t in R ensures Expanded(S, R, t) {
      var i :| 0 <= i < |Q| && Q[i] == t;
    }
    ExpandedClosed(R, S);
    forall t | t in ReachSet(walls) ensures t in R {
      ClosedHoldsReachable(walls, R, t);
    }
  }

  /** src/enclosure.js:43-78: seed from the boundary, then BFS through non-wall
      tiles. The mask returned marks exactly the tiles reachable from outside. */
  method FloodFromBoundary(walls: set<Tile>, qx: array<int>, qy: array<int>)
    returns (reach: array2<bool>, qt: int, ghost R: set<Tile>)
    requires qx.Length == W * H && qy.Length == W * H && qx != qy
    modifies qx, qy
    ensures fresh(reach)
    ensures R == ReachSet(walls)
    ensures MaskIs(reach, R) && R <= OpenTiles(walls)
    ensures qt == |R| <= W * H
  {
    ghost var RS := ReachSet(walls);
    ReachSetSeedsAndSteps(walls);
    reach := new bool[W, H]((i, j) => false);
    ghost var Q: seq<Tile>;
    qt, R, Q := SeedRows(walls, RS, reach, qx, qy);
    qt, R, Q := SeedColumns(walls, RS, reach, qx, qy, qt, R, Q);
    qt, R, Q := DrainReach(walls, RS, reach, qx, qy, qt, R, Q);
    DrainedFloodIsReachable(walls, R, Q);
  }

  // ---------------------------------------------------------------------------
  // Enclosed land

  /** src/enclosure.js:80-89: land tiles that are neither walls nor reached. */
  method MarkInside(land: array2<bool>, reach: array2<bool>, walls: set<Tile>,
                    ghost landSet: set<Tile>, ghost R: set<Tile>)
    returns (inside: array2<bool>)
    requires MaskIs(land, landSet) && MaskIs(reach, R)
    requires R == ReachSet(walls)
    ensures fresh(inside) && MaskIs(inside, Enclosed(walls, landSet))
  {
    inside := new bool[W, H]((i, j) => false);
    ghost var S := Enclosed(walls, landSet);
    for y := 0 to H
      invariant inside.Length0 == W && inside.Length1 == H
      invariant forall x', y' :: 0 <= x' < W && 0 <= y' < H ==>
        (inside[x', y'] <==> y' < y && (x', y') in S)
    {
      for x := 0 to W
        invariant forall x', y' :: 0 <= x' < W && 0 <= y' < H ==>
          (inside[x', y'] <==> (y' < y || (y' == y && x' < x)) && (x', y') in S)
      {
        if !land[x, y] {
          continue;
        }
        if (x, y) in walls {
          continue;
        }
        if !reach[x, y] {
          inside[x, y] := true;
        }
      }
    }
  }

  // ---------------------------------------------------------------------------
  // Labelling enclosed land into regions

  /** A step out of C that stays in S stays in C (true of a component). */
  ghost predicate StepClosedIn(S: set<Tile>, C: set<Tile>)
  {
    forall a, k {:trigger Step(a, k) in C} :: 0 <= k < 4 && a in C && Step(a, k) in S ==> Step(a, k) in C
  }

  lemma ComponentStepClosed(S: set<Tile>, a: Tile)
    ensures StepClosedIn(S, Component(S, a))
  {
    forall b, k | 0 <= k < 4 && b in Component(S, a) && Step(b, k) in S
      ensures Step(b, k) in Component(S, a)
    {
      assert Adjacent(b, Step(b, k));
      LinkedStep(S, a, b, Step(b, k));
    }
  }

  lemma AppendKeepsPrefix(Q: seq<Tile>, t: Tile)
    ensures (Q + [t])[..|Q|] == Q
  {
  }

  lemma PrefixStep(Q0: seq<Tile>, Q: seq<Tile>, n: int)
    requires 0 <= n < |Q0| <= |Q| && Q[..|Q0|] == Q0
    ensures Q[..n + 1] == Q0[..n] + [Q0[n]]
  {
    assert Q[..n + 1] == Q[..|Q0|][..n + 1];
  }

  /** Appending a tile updates the running bounds the way src/enclosure.js:112-115 does. */
  lemma BoundsStep(tiles: seq<Tile>, t: Tile)
    ensures |tiles| == 0 ==> BoundsOf(tiles + [t]) == Bounds(t.0, t.0, t.1, t.1)
    ensures |tiles| > 0 ==> var b := BoundsOf(tiles);
      BoundsOf(tiles + [t]) == Bounds(if t.0 < b.minX then t.0 else b.minX,
                                      if t.0 > b.maxX then t.0 else b.maxX,
                                      if t.1 < b.minY then t.1 else b.minY,
                                      if t.1 > b.maxY then t.1 else b.maxY)
  {
    AppendKeepsPrefix(tiles, t);
  }

  lemma ElemsAppend(s: seq<Tile>, t: Tile)
    ensures Elems(s + [t]) == Elems(s) + {t}
  {
  }

  lemma DistinctAppend(s: seq<Tile>, t: Tile)
    requires Distinct(s) && t !in s
    ensures Distinct(s + [t])
  {
  }

  /** State of the region BFS: the queue Q holds the distinct tiles E of the
      component C, and `visited` marks the tiles visited before (V0) and those of E. */
  ghost predicate GrowInv(C: set<Tile>, V0: set<Tile>, visited: array2<bool>, qx: array<int>,
                          qy: array<int>, qt: int, E: set<Tile>, M: set<Tile>, Q: seq<Tile>)
    reads visited, qx, qy
  {
    && qx.Length == W * H && qy.Length == W * H
    && 0 <= qt == |Q| <= W * H
    && (forall i :: 0 <= i < qt ==> Q[i] == (qx[i], qy[i]))
    && Distinct(Q) && Elems(Q) == E && |E| == qt
    && E <= C
    && MaskIs(visited, M) && (forall t :: t in M <==> t in V0 || t in E)
  }

  /** What the region BFS may assume about its surroundings: `inside` marks S, the
      component C lies in S and avoids the earlier visited tiles V0. */
  ghost predicate GrowFrame(S: set<Tile>, C: set<Tile>, V0: set<Tile>, inside: array2<bool>,
                            visited: array2<bool>, qx: array<int>, qy: array<int>)
    reads inside
  {
    && MaskIs(inside, S) && inside != visited && qx != qy
    && (forall t :: t in S ==> InGrid(t)) && C <= S && C !! V0 && StepClosedIn(S, C)
  }

  /** One direction out of a dequeued tile (src/enclosure.js:116-122): an in-bounds
      enclosed neighbour not yet visited is marked and enqueued. */
  method VisitInside(ghost S: set<Tile>, ghost C: set<Tile>, ghost V0: set<Tile>,
                     inside: array2<bool>, visited: array2<bool>, qx: array<int>, qy: array<int>,
                     qt: int, cx: int, cy: int, k: int, ghost E: set<Tile>, ghost M: set<Tile>, ghost Q: seq<Tile>)
    returns (qt': int, ghost E': set<Tile>, ghost M': set<Tile>, ghost Q': seq<Tile>)
    requires GrowFrame(S, C, V0, inside, visited, qx, qy)
    requires GrowInv(C, V0, visited, qx, qy, qt, E, M, Q)
    requires (cx, cy) in C && 0 <= k < 4
    modifies visited, qx, qy
    ensures GrowInv(C, V0, visited, qx, qy, qt', E', M', Q')
    ensures |Q| <= |Q'| && Q'[..|Q|] == Q && E <= E'
    ensures StepDone(S, E', (cx, cy), k)
  {
    var nx, ny := cx + Dir(k).0, cy + Dir(k).1;
    assert (nx, ny) == Step((cx, cy), k);
    if !InBounds(nx, ny, W, H) || !inside[nx, ny] || visited[nx, ny] {
      return qt, E, M, Q;
    }
    AppendKeepsPrefix(Q, (nx, ny));
    assert (nx, ny) in S && (nx, ny) !in M;
    assert (nx, ny) in C;
    MissingTileBound(E, (nx, ny));
    qt', E', M', Q' := EnqueueInside(C, V0, visited, qx, qy, qt, nx, ny, E, M, Q);
  }

  /** Mark (nx, ny) visited and append it to the region queue. */
  method EnqueueInside(ghost C: set<Tile>, ghost V0: set<Tile>, visited: array2<bool>,
                       qx: array<int>, qy: array<int>, qt: int, nx: int, ny: int,
                       ghost E: set<Tile>, ghost M: set<Tile>, ghost Q: seq<Tile>)
    returns (qt': int, ghost E': set<Tile>, ghost M': set<Tile>, ghost Q': seq<Tile>)
    requires GrowInv(C, V0, visited, qx, qy, qt, E, M, Q) && qx != qy
    requires InGrid((nx, ny)) && (nx, ny) in C && (nx, ny) !in M && |E| < W * H
    modifies visited, qx, qy
    ensures GrowInv(C, V0, visited, qx, qy, qt', E', M', Q')
    ensures Q' == Q + [(nx, ny)] && E' == E + {(nx, ny)}
  {
    DistinctAppend(Q, (nx, ny));
    ElemsAppend(Q, (nx, ny));
    visited[nx, ny] := true;
    qx[qt] := nx;
    qy[qt] := ny;
    qt', E', M', Q' := qt + 1, E + {(nx, ny)}, M + {(nx, ny)}, Q + [(nx, ny)];
    assert forall i :: 0 <= i < qt' ==> Q'[i] == (qx[i], qy[i]);
  }

  /** Expand one dequeued region tile in all four directions. */
  method ExpandInside(ghost S: set<Tile>, ghost C: set<Tile>, ghost V0: set<Tile>,
                      inside: array2<bool>, visited: array2<bool>, qx: array<int>, qy: array<int>,
                      qt: int, cx: int, cy: int, ghost E: set<Tile>, ghost M: set<Tile>, ghost Q: seq<Tile>)
    returns (qt': int, ghost E': set<Tile>, ghost M': set<Tile>, ghost Q': seq<Tile>)
    requires GrowFrame(S, C, V0, inside, visited, qx, qy)
    requires GrowInv(C, V0, visited, qx, qy, qt, E, M, Q)
    requires (cx, cy) in C
    modifies visited, qx, qy
    ensures GrowInv(C, V0, visited, qx, qy, qt', E', M', Q')
    ensures |Q| <= |Q'| && Q'[..|Q|] == Q && E <= E'
    ensures Expanded(S, E', (cx, cy))
  {
    qt', E', M', Q' := qt, E, M, Q;
    for k := 0 to 4
      invariant GrowInv(C, V0, visited, qx, qy, qt', E', M', Q')
      invariant |Q| <= |Q'| && Q'[..|Q|] == Q && E <= E'
      invariant forall j :: 0 <= j < k ==> StepDone(S, E', (cx, cy), j)
    {
      ghost var E0, Q0 := E', Q';
      qt', E', M', Q' := VisitInside(S, C, V0, inside, visited, qx, qy, qt', cx, cy, k, E', M', Q');
      assert Q'[..|Q|] == Q0[..|Q|];
      forall j | 0 <= j <= k ensures StepDone(S, E', (cx, cy), j) {
        if j < k {
          StepDoneGrows(S, E0, E', (cx, cy), j);
        }
      }
    }
  }

  /** One iteration of the region BFS (src/enclosure.js:107-122, queue part):
      expand entry qh; the entries before it stay expanded. */
  method GrowStep(ghost S: set<Tile>, ghost C: set<Tile>, ghost V0: set<Tile>,
                  inside: array2<bool>, visited: array2<bool>, qx: array<int>, qy: array<int>,
                  qt: int, qh: int, ghost E: set<Tile>, ghost M: set<Tile>, ghost Q: seq<Tile>)
    returns (qt': int, ghost E': set<Tile>, ghost M': set<Tile>, ghost Q': seq<Tile>)
    requires GrowFrame(S, C, V0, inside, visited, qx, qy)
    requires GrowInv(C, V0, visited, qx, qy, qt, E, M, Q)
    requires 0 <= qh < qt
    requires forall i :: 0 <= i < qh ==> Expanded(S, E, Q[i])
    modifies visited, qx, qy
    ensures GrowInv(C, V0, visited, qx, qy, qt', E', M', Q')
    ensures qt <= qt' && Q'[..qt] == Q
    ensures forall i :: 0 <= i <= qh ==> Expanded(S, E', Q'[i])
  {
    qt', E', M', Q' := ExpandInside(S, C, V0, inside, visited, qx, qy, qt, qx[qh], qy[qh], E, M, Q);
    forall i | 0 <= i <= qh ensures Expanded(S, E', Q'[i]) {
      assert Q'[i] == Q[i];
      if i < qh {
        ExpandedGrows(S, E, E', Q[i]);
      }
    }
  }

  /** src/enclosure.js:112-115: widen the running bounds of `tiles` by the dequeued
      tile (cx, cy); before the first tile they are the start tile's. */
  method Widen(ghost tiles: seq<Tile>, minX: int, maxX: int, minY: int, maxY: int, cx: int, cy: int)
    returns (minX': int, maxX': int, minY': int, maxY': int)
    requires |tiles| == 0 ==> minX == cx && maxX == cx && minY == cy && maxY == cy
    requires |tiles| > 0 ==> Bounds(minX, maxX, minY, maxY) == BoundsOf(tiles)
    ensures Bounds(minX', maxX', minY', maxY') == BoundsOf(tiles + [(cx, cy)])
  {
    BoundsStep(tiles, (cx, cy));
    minX', maxX', minY', maxY' := minX, maxX, minY, maxY;
    if cx < minX' { minX' := cx; }
    if cx > maxX' { maxX' := cx; }
    if cy < minY' { minY' := cy; }
    if cy > maxY' { maxY' := cy; }
  }

  /** State of the region BFS loop after qh dequeues: `tiles` holds the dequeued
      entries, the bounds are theirs (the start tile's before the first), and every
      dequeued entry is expanded. */
  ghost predicate RegionLoop(S: set<Tile>, C: set<Tile>, V0: set<Tile>, visited: array2<bool>,
                             qx: array<int>, qy: array<int>, x: int, y: int, qh: int, qt: int,
                             E: set<Tile>, M: set<Tile>, Q: seq<Tile>, tiles: seq<Tile>,
                             minX: int, maxX: int, minY: int, maxY: int)
    reads visited, qx, qy
  {
    && GrowInv(C, V0, visited, qx, qy, qt, E, M, Q)
    && 0 <= qh <= qt && 0 < |Q| && Q[0] == (x, y) && tiles == Q[..qh]
    && (qh == 0 ==> minX == x && maxX == x && minY == y && maxY == y)
    && (qh > 0 ==> Bounds(minX, maxX, minY, maxY) == BoundsOf(tiles))
    && (forall i :: 0 <= i < qh ==> Expanded(S, E, Q[i]))
  }

  /** One pass of the region BFS loop (src/enclosure.js:107-122): dequeue, record the
      tile and widen the bounds, expand it. */
  method RegionStep(ghost S: set<Tile>, ghost C: set<Tile>, ghost V0: set<Tile>,
                    inside: array2<bool>, visited: array2<bool>, qx: array<int>, qy: array<int>,
                    ghost x: int, ghost y: int, qh: int, qt: int,
                    ghost E: set<Tile>, ghost M: set<Tile>, ghost Q: seq<Tile>, tiles: seq<Tile>,
                    minX: int, maxX: int, minY: int, maxY: int)
    returns (qh': int, qt': int, ghost E': set<Tile>, ghost M': set<Tile>, ghost Q': seq<Tile>,
             tiles': seq<Tile>, minX': int, maxX': int, minY': int, maxY': int)
    requires GrowFrame(S, C, V0, inside, visited, qx, qy)
    requires RegionLoop(S, C, V0, visited, qx, qy, x, y, qh, qt, E, M, Q, tiles, minX, maxX, minY, maxY)
    requires qh < qt
    modifies visited, qx, qy
    ensures RegionLoop(S, C, V0, visited, qx, qy, x, y, qh', qt', E', M', Q', tiles', minX', maxX', minY', maxY')
    ensures qh' == qh + 1
  {
    var cx, cy := qx[qh], qy[qh];
    assert (cx, cy) == Q[qh];
    qt', E', M', Q' := GrowStep(S, C, V0, inside, visited, qx, qy, qt, qh, E, M, Q);
    PrefixStep(Q, Q', qh);
    minX', maxX', minY', maxY' := Widen(tiles, minX, maxX, minY, maxY, cx, cy);
    tiles' := tiles + [(cx, cy)];
    assert tiles' == Q'[..qh + 1];
    qh' := qh + 1;
  }

  /** src/enclosure.js:98-127: grow one region from the unvisited enclosed tile
      (x, y) by BFS, collecting its tiles in dequeue order and their bounds. The
      tiles are distinct, start at (x, y), stay in the component C, and every
      neighbour of one of them inside S is among them. */
  method GrowRegion(ghost S: set<Tile>, ghost C: set<Tile>, ghost V0: set<Tile>,
                    inside: array2<bool>, visited: array2<bool>, qx: array<int>, qy: array<int>,
                    x: int, y: int)
    returns (r: Region, ghost M: set<Tile>)
    requires GrowFrame(S, C, V0, inside, visited, qx, qy)
    requires MaskIs(visited, V0) && qx.Length == W * H && qy.Length == W * H
    requires (x, y) in C
    modifies visited, qx, qy
    ensures MaskIs(visited, M) && M == V0 + Elems(r.tiles)
    ensures |r.tiles| > 0 && r.tiles[0] == (x, y) && Distinct(r.tiles) && Elems(r.tiles) <= C
    ensures forall i :: 0 <= i < |r.tiles| ==> Expanded(S, Elems(r.tiles), r.tiles[i])
    ensures r.bounds == BoundsOf(r.tiles)
  {
    var minX, maxX, minY, maxY := x, x, y, y;
    var tiles: seq<Tile> := [];
    visited[x, y] := true;
    var qh, qt := 0, 0;
    qx[qt] := x;
    qy[qt] := y;
    qt := qt + 1;
    ghost var E, Q := {(x, y)}, [(x, y)];
    M := V0 + {(x, y)};
    while qh < qt
      invariant GrowFrame(S, C, V0, inside, visited, qx, qy)
      invariant RegionLoop(S, C, V0, visited, qx, qy, x, y, qh, qt, E, M, Q, tiles, minX, maxX, minY, maxY)
      decreases W * H - qh
    {
      qh, qt, E, M, Q, tiles, minX, maxX, minY, maxY :=
        RegionStep(S, C, V0, inside, visited, qx, qy, x, y, qh, qt, E, M, Q, tiles, minX, maxX, minY, maxY);
    }
    RegionLoopDone(S, C, V0, visited, qx, qy, x, y, qh, qt, E, M, Q, tiles, minX, maxX, minY, maxY);
    r := Region(tiles, Bounds(minX, maxX, minY, maxY));
  }

  /** When the region queue is drained, the dequeued tiles are the whole queue. */
  lemma RegionLoopDone(S: set<Tile>, C: set<Tile>, V0: set<Tile>, visited: array2<bool>,
                       qx: array<int>, qy: array<int>, x: int, y: int, qh: int, qt: int,
                       E: set<Tile>, M: set<Tile>, Q: seq<Tile>, tiles: seq<Tile>,
                       minX: int, maxX: int, minY: int, maxY: int)
    requires RegionLoop(S, C, V0, visited, qx, qy, x, y, qh, qt, E, M, Q, tiles, minX, maxX, minY, maxY)
    requires qh == qt
    ensures MaskIs(visited, M) && M == V0 + Elems(tiles)
    ensures |tiles| > 0 && tiles[0] == (x, y) && Distinct(tiles) && Elems(tiles) <= C
    ensures forall i :: 0 <= i < |tiles| ==> Expanded(S, Elems(tiles), tiles[i])
    ensures Bounds(minX, maxX, minY, maxY) == BoundsOf(tiles)
  {
    assert tiles == Q;
  }

  /** A BFS result that starts at a, stays in a's component and is closed under
      steps within S is that whole component. */
  lemma GrownIsComponent(S: set<Tile>, a: Tile, tiles: seq<Tile>)
    requires |tiles| > 0 && tiles[0] == a && Elems(tiles) <= Component(S, a)
    requires forall i :: 0 <= i < |tiles| ==> Expanded(S, Elems(tiles), tiles[i])
    ensures Elems(tiles) == Component(S, a)
  {
    forall t | t in Elems(tiles) ensures Expanded(S, Elems(tiles), t) {
      var i :| 0 <= i < |tiles| && tiles[i] == t;
    }
    ExpandedClosed(Elems(tiles), S);
    forall b | b in Component(S, a) ensures b in Elems(tiles) {
      var p :| IsWalk(p, S) && p[0] == a && p[|p| - 1] == b;
      WalkStaysIn(p, S, Elems(tiles));
    }
  }

  lemma TilesOfAppend(regions: seq<Region>, r: Region)
    ensures TilesOf(regions + [r]) == TilesOf(regions) + Elems(r.tiles)
  {
    var rs := regions + [r];
    forall t | t in TilesOf(rs) ensures t in TilesOf(regions) + Elems(r.tiles) {
      var i :| 0 <= i < |rs| && t in rs[i].tiles;
      if i < |regions| {
        assert t in regions[i].tiles;
      }
    }
    forall t | t in TilesOf(regions) + Elems(r.tiles) ensures t in TilesOf(rs) {
      if t in TilesOf(regions) {
        var i :| 0 <= i < |regions| && t in regions[i].tiles;
        assert rs[i] == regions[i];
      } else {
        assert rs[|regions|] == r;
      }
    }
  }

  /** Regions found so far: each is a whole component of S, they are pairwise
      disjoint, and V is the set of their tiles. */
  ghost predicate Labelled(S: set<Tile>, regions: seq<Region>, V: set<Tile>)
  {
    && V == TilesOf(regions)
    && (forall i :: 0 <= i < |regions| ==> IsRegion(regions[i], S))
    && (forall i, j :: 0 <= i < j < |regions| ==> Elems(regions[i].tiles) !! Elems(regions[j].tiles))
  }

  /** A labelled tile labels its whole component. */
  lemma LabelledHoldsComponent(S: set<Tile>, regions: seq<Region>, V: set<Tile>, a: Tile, u: Tile)
    requires Labelled(S, regions, V) && a in S && u in Component(S, a)
    ensures u in V ==> a in V
  {
    if u in V {
      var i :| 0 <= i < |regions| && u in regions[i].tiles;
      var r0 := regions[i].tiles[0];
      assert IsRegion(regions[i], S);
      SameComponent(S, a, u);
      SameComponent(S, r0, u);
      LinkedRefl(S, a);
      assert a in Elems(regions[i].tiles);
    }
  }

  /** An unlabelled tile's component shares no tile with the labelled regions. */
  lemma ComponentAvoidsLabelled(S: set<Tile>, regions: seq<Region>, V: set<Tile>, a: Tile)
    requires Labelled(S, regions, V) && a in S && a !in V
    ensures Component(S, a) !! V
  {
    forall u | u in Component(S, a) ensures u !in V {
      LabelledHoldsComponent(S, regions, V, a, u);
    }
  }

  lemma LabelledAppend(S: set<Tile>, regions: seq<Region>, V: set<Tile>, r: Region, a: Tile)
    requires Labelled(S, regions, V) && a in S && Component(S, a) !! V
    requires |r.tiles| > 0 && r.tiles[0] == a && Distinct(r.tiles) && Elems(r.tiles) <= Component(S, a)
    requires forall i :: 0 <= i < |r.tiles| ==> Expanded(S, Elems(r.tiles), r.tiles[i])
    requires r.bounds == BoundsOf(r.tiles)
    ensures Labelled(S, regions + [r], V + Elems(r.tiles))
  {
    GrownIsComponent(S, a, r.tiles);
    TilesOfAppend(regions, r);
    var rs := regions + [r];
    assert IsRegion(r, S);
    forall i | 0 <= i < |rs| ensures IsRegion(rs[i], S) {
      if i < |regions| {
        assert rs[i] == regions[i];
      }
    }
    forall i, j | 0 <= i < j < |rs| ensures Elems(rs[i].tiles) !! Elems(rs[j].tiles) {
      if j == |regions| {
        assert Elems(rs[i].tiles) <= V;
      } else {
        assert rs[i] == regions[i] && rs[j] == regions[j];
      }
    }
  }

  /** The body of the scan at (x, y) (src/enclosure.js:96-128): an enclosed tile not
      yet visited starts a new region. Afterwards (x, y) is labelled if it is in S. */
  method LabelAt(ghost S: set<Tile>, inside: array2<bool>, visited: array2<bool>, qx: array<int>,
                 qy: array<int>, x: int, y: int, regions: seq<Region>, ghost V: set<Tile>)
    returns (regions': seq<Region>, ghost V': set<Tile>)
    requires MaskIs(inside, S) && MaskIs(visited, V) && inside != visited && qx != qy
    requires qx.Length == W * H && qy.Length == W * H
    requires (forall t :: t in S ==> InGrid(t)) && InGrid((x, y))
    requires Labelled(S, regions, V)
    modifies visited, qx, qy
    ensures MaskIs(visited, V') && Labelled(S, regions', V') && V <= V'
    ensures (x, y) in S ==> (x, y) in V'
  {
    if !inside[x, y] || visited[x, y] {
      return regions, V;
    }
    ghost var C := Component(S, (x, y));
    LinkedRefl(S, (x, y));
    ComponentStepClosed(S, (x, y));
    ComponentAvoidsLabelled(S, regions, V, (x, y));
    var r;
    r, V' := GrowRegion(S, C, V, inside, visited, qx, qy, x, y);
    LabelledAppend(S, regions, V, r, (x, y));
    regions' := regions + [r];
  }

  lemma LabelledWithin(S: set<Tile>, regions: seq<Region>, V: set<Tile>)
    requires Labelled(S, regions, V)
    ensures V <= S
  {
    forall t | t in V ensures t in S {
      var i :| 0 <= i < |regions| && t in regions[i].tiles;
      assert IsRegion(regions[i], S);
      assert t in Elems(regions[i].tiles);
    }
  }

  /** src/enclosure.js:92-128: scan the grid row by row and grow a region from every
      enclosed tile not yet visited. The regions found are whole components of S,
      pairwise disjoint, and together cover S. */
  method LabelRegions(ghost S: set<Tile>, inside: array2<bool>, qx: array<int>, qy: array<int>)
    returns (regions: seq<Region>)
    requires MaskIs(inside, S) && qx != qy && qx.Length == W * H && qy.Length == W * H
    requires forall t :: t in S ==> InGrid(t)
    modifies qx, qy
    ensures Labelled(S, regions, S)
  {
    var visited := new bool[W, H]((i, j) => false);
    regions := [];
    ghost var V: set<Tile> := {};
    for y := 0 to H
      invariant MaskIs(visited, V) && Labelled(S, regions, V)
      invariant forall x', y' :: 0 <= x' < W && 0 <= y' < y && (x', y') in S ==> (x', y') in V
    {
      for x := 0 to W
        invariant MaskIs(visited, V) && Labelled(S, regions, V)
        invariant forall x', y' :: 0 <= x' < W && 0 <= y' < y && (x', y') in S ==> (x', y') in V
        invariant forall x' :: 0 <= x' < x && (x', y) in S ==> (x', y) in V
      {
        ghost var V0 := V;
        regions, V := LabelAt(S, inside, visited, qx, qy, x, y, regions, V);
        forall x', y' | 0 <= x' < W && 0 <= y' < y && (x', y') in S ensures (x', y') in V {
          assert (x', y') in V0;
        }
        forall x' | 0 <= x' <= x && (x', y) in S ensures (x', y) in V {
          if x' < x {
            assert (x', y) in V0;
          }
        }
      }
    }
    LabelledWithin(S, regions, V);
    forall t | t in S ensures t in V {
      assert t == (t.0, t.1);
    }
  }

  // ---------------------------------------------------------------------------
  // Filter and sort

  /** Distinct positions hold tile-disjoint regions. */
  ghost predicate PairwiseDisjoint(rs: seq<Region>)
  {
    forall i, j :: 0 <= i < j < |rs| ==> Elems(rs[i].tiles) !! Elems(rs[j].tiles)
  }

  /** Regions ordered by non-increasing number of tiles. */
  predicate SortedBySize(rs: seq<Region>)
  {
    forall i, j :: 0 <= i < j < |rs| ==> |rs[i].tiles| >= |rs[j].tiles|
  }

  /** The size filter of src/enclosure.js:131-132: exactly the regions of at least
      MinTiles tiles survive. */
  function KeepLarge(rs: seq<Region>): (out: seq<Region>)
    ensures forall r :: r in out <==> r in rs && |r.tiles| >= MinTiles
    ensures |out| <= |rs|
  {
    if |rs| == 0 then []
    else (if |rs[0].tiles| >= MinTiles then [rs[0]] else []) + KeepLarge(rs[1..])
  }

  lemma ConsSorted(h: Region, tail: seq<Region>)
    requires SortedBySize(tail)
    requires forall x :: x in tail ==> |h.tiles| >= |x.tiles|
    ensures SortedBySize([h] + tail)
  {
    var s := [h] + tail;
    forall i, j | 0 <= i < j < |s| ensures |s[i].tiles| >= |s[j].tiles| {
      assert s[j] == tail[j - 1];
      if i > 0 {
        assert s[i] == tail[i - 1];
      }
    }
  }

  /** Insert r before the first region that is not larger than it. */
  function InsertBySize(r: Region, rs: seq<Region>): (out: seq<Region>)
    ensures multiset(out) == multiset(rs) + multiset{r}
  {
    if |rs| == 0 then [r]
    else if |r.tiles| >= |rs[0].tiles| then [r] + rs
    else
      assert rs == [rs[0]] + rs[1..];
      [rs[0]] + InsertBySize(r, rs[1..])
  }

  lemma {:induction false} InsertKeepsSorted(r: Region, rs: seq<Region>)
    requires SortedBySize(rs)
    ensures SortedBySize(InsertBySize(r, rs))
  {
    if |rs| == 0 {
    } else if |r.tiles| >= |rs[0].tiles| {
      forall x | x in rs ensures |r.tiles| >= |x.tiles| {
        var k :| 0 <= k < |rs| && rs[k] == x;
        assert k == 0 || |rs[0].tiles| >= |rs[k].tiles|;
      }
      ConsSorted(r, rs);
    } else {
      var tail := InsertBySize(r, rs[1..]);
      assert SortedBySize(rs[1..]);
      InsertKeepsSorted(r, rs[1..]);
      forall x | x in tail ensures |rs[0].tiles| >= |x.tiles| {
        assert x in multiset(tail);
        if x != r {
          assert x in multiset(rs[1..]);
          var k :| 0 <= k < |rs[1..]| && rs[1..][k] == x;
          assert rs[k + 1] == x;
        }
      }
      ConsSorted(rs[0], tail);
    }
  }

  /** The sort of src/enclosure.js:134, largest region first: a stable sort by
      non-increasing size, as an insertion sort. The result is a permutation of the
      input. */
  function SortBySize(rs: seq<Region>): (out: seq<Region>)
    ensures multiset(out) == multiset(rs)
  {
    if |rs| == 0 then []
    else
      assert rs == [rs[0]] + rs[1..];
      InsertBySize(rs[0], SortBySize(rs[1..]))
  }

  /** The sort puts the regions in order of non-increasing size. */
  lemma {:induction false} SortBySizeSorted(rs: seq<Region>)
    ensures SortedBySize(SortBySize(rs))
  {
    if |rs| > 0 {
      SortBySizeSorted(rs[1..]);
      InsertKeepsSorted(rs[0], SortBySize(rs[1..]));
    }
  }

  lemma ConsDisjoint(h: Region, tail: seq<Region>)
    ensures PairwiseDisjoint([h] + tail) <==>
      PairwiseDisjoint(tail) && forall x :: x in tail ==> Elems(h.tiles) !! Elems(x.tiles)
  {
    var s := [h] + tail;
    if PairwiseDisjoint(tail) && forall x :: x in tail ==> Elems(h.tiles) !! Elems(x.tiles) {
      forall i, j | 0 <= i < j < |s| ensures Elems(s[i].tiles) !! Elems(s[j].tiles) {
        assert s[j] == tail[j - 1];
        if i > 0 {
          assert s[i] == tail[i - 1];
        }
      }
    }
    if PairwiseDisjoint(s) {
      forall i, j | 0 <= i < j < |tail| ensures Elems(tail[i].tiles) !! Elems(tail[j].tiles) {
        assert s[i + 1] == tail[i] && s[j + 1] == tail[j];
      }
      forall x | x in tail ensures Elems(h.tiles) !! Elems(x.tiles) {
        var k :| 0 <= k < |tail| && tail[k] == x;
        assert s[0] == h && s[k + 1] == x;
        assert Elems(s[0].tiles) !! Elems(s[k + 1].tiles);
      }
    }
  }

  /** Filtering keeps the regions pairwise disjoint. */
  lemma {:induction false} KeepLargeDisjoint(rs: seq<Region>)
    requires PairwiseDisjoint(rs)
    ensures PairwiseDisjoint(KeepLarge(rs))
  {
    if |rs| > 0 {
      assert rs == [rs[0]] + rs[1..];
      ConsDisjoint(rs[0], rs[1..]);
      KeepLargeDisjoint(rs[1..]);
      if |rs[0].tiles| >= MinTiles {
        ConsDisjoint(rs[0], KeepLarge(rs[1..]));
      }
    }
  }

  lemma {:induction false} InsertKeepsDisjoint(r: Region, rs: seq<Region>)
    requires PairwiseDisjoint(rs) && forall x :: x in rs ==> Elems(r.tiles) !! Elems(x.tiles)
    ensures PairwiseDisjoint(InsertBySize(r, rs))
  {
    if |rs| == 0 {
    } else if |r.tiles| >= |rs[0].tiles| {
      ConsDisjoint(r, rs);
    } else {
      assert rs == [rs[0]] + rs[1..];
      ConsDisjoint(rs[0], rs[1..]);
      InsertKeepsDisjoint(r, rs[1..]);
      var tail := InsertBySize(r, rs[1..]);
      forall x | x in tail ensures Elems(rs[0].tiles) !! Elems(x.tiles) {
        assert x in multiset(tail);
        if x == r {
          assert rs[0] in rs;
        } else {
          assert x in multiset(rs[1..]);
        }
      }
      ConsDisjoint(rs[0], tail);
    }
  }

  /** Sorting keeps the regions pairwise disjoint. */
  lemma {:induction false} SortBySizeDisjoint(rs: seq<Region>)
    requires PairwiseDisjoint(rs)
    ensures PairwiseDisjoint(SortBySize(rs))
  {
    if |rs| > 0 {
      assert rs == [rs[0]] + rs[1..];
      ConsDisjoint(rs[0], rs[1..]);
      SortBySizeDisjoint(rs[1..]);
      forall x | x in SortBySize(rs[1..]) ensures Elems(rs[0].tiles) !! Elems(x.tiles) {
        assert x in multiset(SortBySize(rs[1..]));
        assert x in multiset(rs[1..]);
      }
      InsertKeepsDisjoint(rs[0], SortBySize(rs[1..]));
    }
  }

  // ---------------------------------------------------------------------------
  // The whole computation

  /** Every region that survives the filter and the sort is a labelled region with at
      least MinTiles tiles. */
  lemma KeptAreLargeRegions(S: set<Tile>, raw: seq<Region>)
    requires forall i :: 0 <= i < |raw| ==> IsRegion(raw[i], S)
    ensures forall i :: 0 <= i < |SortBySize(KeepLarge(raw))| ==>
      IsRegion(SortBySize(KeepLarge(raw))[i], S) && |SortBySize(KeepLarge(raw))[i].tiles| >= MinTiles
  {
    var kept := KeepLarge(raw);
    var out := SortBySize(kept);
    forall i | 0 <= i < |out| ensures IsRegion(out[i], S) && |out[i].tiles| >= MinTiles {
      assert out[i] in multiset(out);
      assert out[i] in kept;
      var k :| 0 <= k < |raw| && raw[k] == out[i];
    }
  }

  /** A labelled tile whose component is large lies in a labelled region that is large. */
  lemma LargeRegionOf(S: set<Tile>, raw: seq<Region>, t: Tile) returns (r: Region)
    requires Labelled(S, raw, S)
    requires t in S && |Component(S, t)| >= MinTiles
    ensures r in raw && t in r.tiles && |r.tiles| >= MinTiles
  {
    assert t in TilesOf(raw);
    var k :| 0 <= k < |raw| && t in raw[k].tiles;
    r := raw[k];
    assert IsRegion(r, S);
    assert t in Elems(r.tiles);
    SameComponent(S, r.tiles[0], t);
    DistinctCard(r.tiles);
  }

  /** A large region survives the filter and the sort. */
  lemma KeptSurvives(raw: seq<Region>, r: Region)
    requires r in raw && |r.tiles| >= MinTiles
    ensures r in SortBySize(KeepLarge(raw))
  {
    assert r in KeepLarge(raw);
    assert r in multiset(SortBySize(KeepLarge(raw)));
  }

  lemma InRegionOf(regions: seq<Region>, r: Region, t: Tile)
    requires r in regions && t in r.tiles
    ensures InSomeRegion(regions, t)
  {
    var i :| 0 <= i < |regions| && regions[i] == r;
  }

  /** Every tile of S whose component is large lies in a kept region. */
  lemma KeptCoversLarge(S: set<Tile>, raw: seq<Region>)
    requires Labelled(S, raw, S)
    ensures forall t :: t in S && |Component(S, t)| >= MinTiles ==> InSomeRegion(SortBySize(KeepLarge(raw)), t)
  {
    forall t | t in S && |Component(S, t)| >= MinTiles
      ensures InSomeRegion(SortBySize(KeepLarge(raw)), t)
    {
      var r := LargeRegionOf(S, raw, t);
      KeptSurvives(raw, r);
      InRegionOf(SortBySize(KeepLarge(raw)), r, t);
    }
  }

  /** Filtering the labelled regions and sorting them gives the layout of S. */
  lemma FilterSortIsLayout(S: set<Tile>, raw: seq<Region>)
    requires Labelled(S, raw, S)
    ensures IsLayoutOf(SortBySize(KeepLarge(raw)), S)
  {
    KeptAreLargeRegions(S, raw);
    assert PairwiseDisjoint(raw);
    KeepLargeDisjoint(raw);
    SortBySizeDisjoint(KeepLarge(raw));
    KeptCoversLarge(S, raw);
    SortBySizeSorted(KeepLarge(raw));
  }

  /** `recomputeCourtyards` (src/enclosure.js:28-136) without its final store: the
      courtyard regions for the given walls and island. The result is exactly the
      layout IsCourtyardLayout describes (every enclosed component of at least
      MinTiles land tiles, once, largest first), so it is determined by the walls
      and the land alone (Regions.LayoutUnique). */
  method ComputeCourtyards(walls: set<Tile>, land: set<Tile>) returns (regions: seq<Region>)
    ensures IsCourtyardLayout(regions, walls, land)
  {
    var landMask := FillLand(land);
    var qx := new int[W * H];
    var qy := new int[W * H];
    var reach, qt, R := FloodFromBoundary(walls, qx, qy);
    var inside := MarkInside(landMask, reach, walls, land, R);
    var found := LabelRegions(Enclosed(walls, land), inside, qx, qy);
    regions := SortBySize(KeepLarge(found));
    FilterSortIsLayout(Enclosed(walls, land), found);
  }

  /** `recomputeCourtyards(state)`: the courtyard layout of the current walls on the
      island, stored in `courtyardRegions`; nothing else changes. */
  method RecomputeCourtyards(s: GameState)
    modifies s`courtyardRegions
    ensures IsCourtyardLayout(s.courtyardRegions, s.wallTiles, s.land)
  {
    s.courtyardRegions := ComputeCourtyards(s.wallTiles, s.land);
  }
}
