/** src/buildPhase.js: drawing the next piece, the hover test for a piece, and
    committing or erasing walls. */
module BuildPhase {
  import opened Grid
  import opened Regions
  import opened Utils
  import opened Pieces
  import opened State
  import opened Courtyard

  // ---------------------------------------------------------------------------
  // Specification

  /** The cells a piece anchored at (ax, ay) covers: its offsets in their order,
      moved to the anchor. */
  function PieceCells(ax: int, ay: int, p: Piece): seq<Tile>
  {
    var o := Offsets(p.kind, p.rot);
    seq(|o|, i requires 0 <= i < |o| => (ax + o[i].0, ay + o[i].1))
  }

  /** A tile a wall may go on: on the grid, land, and not yet a wall. */
  predicate Buildable(s: GameState, c: Tile)
    reads s`wallTiles
  {
    InGrid(c) && IsLandTile(s.cx, s.cy, s.rx, s.ry, c) && c !in s.wallTiles
  }

  /** The validity `computePieceCells` reports: every cell is buildable. */
  predicate PieceFits(s: GameState, ax: int, ay: int, p: Piece)
    reads s`wallTiles
  {
    forall c :: c in PieceCells(ax, ay, p) ==> Buildable(s, c)
  }

  /** The hover is anchored at (x, y) and is what `setHover` computes there for the
      current piece. */
  predicate HoverAt(s: GameState, x: int, y: int)
    reads s`wallTiles, s`piece, s`hover
  {
    s.hover == Hover(x, y, PieceFits(s, x, y, s.piece), PieceCells(x, y, s.piece))
  }

  /** Every wall stands on land inside the grid. */
  predicate WallsOnLand(s: GameState)
    reads s`wallTiles
  {
    forall w :: w in s.wallTiles ==> InGrid(w) && w in s.land
  }

  // ---------------------------------------------------------------------------
  // Properties of the specification

  /** A piece covers four distinct cells, none left of or above its anchor, and the
      anchor moves them all alike. */
  lemma PieceCellsShape(ax: int, ay: int, p: Piece)
    ensures |PieceCells(ax, ay, p)| == 4 && Distinct(PieceCells(ax, ay, p))
    ensures forall c :: c in PieceCells(ax, ay, p) ==> c.0 >= ax && c.1 >= ay
    ensures forall i :: 0 <= i < 4 ==>
      PieceCells(ax, ay, p)[i] == (PieceCells(0, 0, p)[i].0 + ax, PieceCells(0, 0, p)[i].1 + ay)
  {
    OffsetsShape(p.kind, p.rot);
    var cells := PieceCells(ax, ay, p);
    var o := Offsets(p.kind, p.rot);
    forall i, j | 0 <= i < j < |cells| ensures cells[i] != cells[j] {
      assert o[i] != o[j];
    }
    forall c | c in cells ensures c.0 >= ax && c.1 >= ay {
      var i :| 0 <= i < |cells| && cells[i] == c;
      assert o[i].0 >= 0 && o[i].1 >= 0;
    }
  }

  /** A piece that fits lies on free land: committing it adds exactly its four
      cells, and the walls stay on land. */
  lemma CommitGrows(s: GameState, ax: int, ay: int, p: Piece)
    requires PieceFits(s, ax, ay, p)
    ensures Elems(PieceCells(ax, ay, p)) !! s.wallTiles
    ensures |s.wallTiles + Elems(PieceCells(ax, ay, p))| == |s.wallTiles| + 4
    ensures forall c :: c in Elems(PieceCells(ax, ay, p)) ==> InGrid(c) && c in s.land
  {
    var cells := PieceCells(ax, ay, p);
    PieceCellsShape(ax, ay, p);
    DistinctCard(cells);
    assert |Elems(cells)| == 4;
  }

  // ---------------------------------------------------------------------------
  // The operations

  /** `newPiece()`: the next piece drawn from the piece generator. */
  method NewPiece(s: GameState, rng: Rng)
    requires rng.Valid()
    modifies s`piece, rng
    ensures rng.Valid() && rng.seed == NextSeed(old(rng.seed))
    ensures s.piece == Piece(Types[Draw(rng.seed, 0, |Types| - 1)], 0)
  {
    s.piece := NextPiece(rng);
  }

  /** `isLandTile(tx, ty)`: the ellipse test on the tile's centre; on the grid it
      agrees with the land mask. */
  method IsLandTileAt(s: GameState, tx: int, ty: int) returns (b: bool)
    ensures b <==> IsLandTile(s.cx, s.cy, s.rx, s.ry, (tx, ty))
  {
    var px := (tx * TileSize) as real + TileSize as real / 2.0;
    var py := (ty * TileSize) as real + TileSize as real / 2.0;
    b := InsideEllipse(px, py, s.cx, s.cy, s.rx * 0.98, s.ry * 0.98);
  }

  /** `computePieceCells(ax, ay, piece)`: the offsets moved to the anchor, and a
      scan that stops at the first cell off the grid, off the land or on a wall. */
  method ComputePieceCells(s: GameState, ax: int, ay: int, piece: Piece)
    returns (cells: seq<Tile>, valid: bool)
    ensures cells == PieceCells(ax, ay, piece)
    ensures valid <==> PieceFits(s, ax, ay, piece)
  {
    var offsets := GetOffsets(piece.kind, piece.rot);
    cells := seq(|offsets|, i requires 0 <= i < |offsets| => (ax + offsets[i].0, ay + offsets[i].1));
    assert cells == PieceCells(ax, ay, piece);
    valid := true;
    for i := 0 to |cells|
      invariant valid ==> forall j :: 0 <= j < i ==> Buildable(s, cells[j])
      invariant !valid ==> !PieceFits(s, ax, ay, piece)
    {
      var c := cells[i];
      assert c in PieceCells(ax, ay, piece);
      if c.0 < 0 || c.1 < 0 || c.0 > W - 1 || c.1 > H - 1 {
        valid := false;
        break;
      }
      var onLand := IsLandTileAt(s, c.0, c.1);
      if !onLand {
        valid := false;
        break;
      }
      if c in s.wallTiles {
        valid := false;
        break;
      }
    }
    if valid {
      forall c | c in cells ensures Buildable(s, c) {
        var j :| 0 <= j < |cells| && cells[j] == c;
      }
    }
  }

  /** `setHover(tx, ty)`. */
  method SetHover(s: GameState, tx: int, ty: int)
    modifies s`hover
    ensures HoverAt(s, tx, ty)
  {
    var cells, valid := ComputePieceCells(s, tx, ty, s.piece);
    s.hover := Hover(tx, ty, valid, cells);
  }

  /** No field `placeAtHover` may change changed, and no number was drawn. */
  twostate predicate BuildUntouched(s: GameState, rng: Rng)
    reads s`wallTiles, s`courtyardRegions, s`courtyardSet, s`piece, s`hover, rng
  {
    && s.wallTiles == old(s.wallTiles) && s.courtyardRegions == old(s.courtyardRegions)
    && s.courtyardSet == old(s.courtyardSet) && s.piece == old(s.piece) && s.hover == old(s.hover)
    && rng.seed == old(rng.seed)
  }

  /** The hover's cells became walls, the courtyards agree with the new walls, the
      next piece was drawn, and the hover was recomputed at the same anchor. */
  twostate predicate PieceCommitted(s: GameState, rng: Rng)
    reads s`wallTiles, s`courtyardRegions, s`courtyardSet, s`piece, s`hover, rng
  {
    && s.wallTiles == old(s.wallTiles) + Elems(old(s.hover.cells))
    && s.CourtyardsCurrent()
    && rng.Valid() && rng.seed == NextSeed(old(rng.seed))
    && s.piece == Piece(Types[Draw(rng.seed, 0, |Types| - 1)], 0)
    && HoverAt(s, old(s.hover.x), old(s.hover.y))
  }

  /** `placeAtHover()`: nothing unless the hover is flagged valid; then its cells
      become walls, the courtyards are recomputed, the next piece is drawn and the
      hover is recomputed for it at the same anchor. The flag is trusted: when the
      hover is current, exactly four free land tiles become walls, so the walls stay
      on land. */
  method PlaceAtHover(s: GameState, rng: Rng)
    requires rng.Valid()
    modifies s`wallTiles, s`courtyardRegions, s`courtyardSet, s`piece, s`hover, rng
    ensures !old(s.hover.valid) ==> BuildUntouched(s, rng)
    ensures old(s.hover.valid) ==> PieceCommitted(s, rng)
    ensures old(s.hover.valid && HoverAt(s, s.hover.x, s.hover.y)) ==>
      |s.wallTiles| == |old(s.wallTiles)| + 4
    ensures old(HoverAt(s, s.hover.x, s.hover.y) && WallsOnLand(s)) ==> WallsOnLand(s)
  {
    if !s.hover.valid {
      return;
    }
    if HoverAt(s, s.hover.x, s.hover.y) {
      CommitGrows(s, s.hover.x, s.hover.y, s.piece);
    }
    CommitHover(s);
    FinishPlacement(s, rng);
  }

  /** The loop of `placeAtHover`: every hover cell becomes a wall. */
  method CommitHover(s: GameState)
    modifies s`wallTiles
    ensures s.wallTiles == old(s.wallTiles) + Elems(s.hover.cells)
  {
    var cells := s.hover.cells;
    for i := 0 to |cells|
      invariant s.wallTiles == old(s.wallTiles) + Elems(cells[..i])
    {
      assert cells[..i + 1] == cells[..i] + [cells[i]];
      s.wallTiles := s.wallTiles + {cells[i]};
    }
    assert cells[..|cells|] == cells;
  }

  /** The tail of `placeAtHover`: refresh the courtyards, draw the next piece and
      recompute the hover at the same anchor. */
  method FinishPlacement(s: GameState, rng: Rng)
    requires rng.Valid()
    modifies s`courtyardRegions, s`courtyardSet, s`piece, s`hover, rng
    ensures s.CourtyardsCurrent()
    ensures rng.Valid() && rng.seed == NextSeed(old(rng.seed))
    ensures s.piece == Piece(Types[Draw(rng.seed, 0, |Types| - 1)], 0)
    ensures HoverAt(s, old(s.hover.x), old(s.hover.y))
  {
    RefreshCourtyards(s);
    NewPiece(s, rng);
    var cells, valid := ComputePieceCells(s, s.hover.x, s.hover.y, s.piece);
    s.hover := s.hover.(valid := valid, cells := cells);
  }

  /** `eraseAtHover()`: nothing when the hover is off the grid to the left or top;
      otherwise the wall under the anchor, if any, is removed, the courtyards are
      recomputed and the hover is recomputed at the same anchor. Walls only go away,
      so they stay on land. */
  method EraseAtHover(s: GameState)
    modifies s`wallTiles, s`courtyardRegions, s`courtyardSet, s`hover
    ensures old(s.hover.x) < 0 || old(s.hover.y) < 0 ==>
      s.wallTiles == old(s.wallTiles) && s.courtyardRegions == old(s.courtyardRegions)
      && s.courtyardSet == old(s.courtyardSet) && s.hover == old(s.hover)
    ensures old(s.hover.x) >= 0 && old(s.hover.y) >= 0 ==>
      && s.wallTiles == old(s.wallTiles) - {(old(s.hover.x), old(s.hover.y))}
      && s.CourtyardsCurrent()
      && HoverAt(s, old(s.hover.x), old(s.hover.y))
    ensures old(WallsOnLand(s)) ==> WallsOnLand(s)
  {
    var h := s.hover;
    if h.x < 0 || h.y < 0 {
      return;
    }
    s.wallTiles := s.wallTiles - {(h.x, h.y)};
    RefreshCourtyards(s);
    var cells, valid := ComputePieceCells(s, h.x, h.y, s.piece);
    s.hover := h.(valid := valid, cells := cells);
  }
}
