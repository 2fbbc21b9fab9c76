/** Grid geometry shared by every phase: the internal buffer size and tile size of
    src/config.js, the tile keys of ChatGptRampart/src/utils.js, and the bounds test
    and four-neighbour directions of src/enclosure.js. */
module Grid {

  const InternalW: int := 384
  const InternalH: int := 288
  const TileSize: int := 8

  /** Width and height of the play field in tiles (48 by 36). */
  const W: int := InternalW / TileSize
  const H: int := InternalH / TileSize

  /** A tile coordinate; the source packs it into the string key "x,y". */
  type Tile = (int, int)

  /** The bounds test of src/enclosure.js:11-13. */
  predicate InBounds(x: int, y: int, w: int, h: int)
  {
    x >= 0 && y >= 0 && x < w && y < h
  }

  predicate InGrid(t: Tile)
  {
    InBounds(t.0, t.1, W, H)
  }

  /** Entry k of DIRS: right, left, down, up. */
  function Dir(k: int): (d: (int, int))
    requires 0 <= k < 4
  {
    if k == 0 then (1, 0) else if k == 1 then (-1, 0) else if k == 2 then (0, 1) else (0, -1)
  }

  function Step(t: Tile, k: int): Tile
    requires 0 <= k < 4
  {
    (t.0 + Dir(k).0, t.1 + Dir(k).1)
  }

  /** Four-neighbourhood: the tiles one step along some entry of DIRS. */
  predicate Adjacent(a: Tile, b: Tile)
  {
    b == (a.0 + 1, a.1) || b == (a.0 - 1, a.1) || b == (a.0, a.1 + 1) || b == (a.0, a.1 - 1)
  }

  function GridTiles(): set<Tile>
  {
    set x, y | 0 <= x < W && 0 <= y < H :: (x, y)
  }

  function Elems(s: seq<Tile>): set<Tile>
  {
    set t | t in s
  }

  predicate Distinct(s: seq<Tile>)
  {
    forall i, j :: 0 <= i < j < |s| ==> s[i] != s[j]
  }

  lemma AdjacentSymmetric(a: Tile, b: Tile)
    ensures Adjacent(a, b) <==> Adjacent(b, a)
  {
  }

  /** Every neighbour is reached by one of the four directions, and every direction
      gives a neighbour. */
  lemma AdjacentIsStep(a: Tile, b: Tile)
    ensures Adjacent(a, b) <==> exists k :: 0 <= k < 4 && b == Step(a, k)
  {
    if Adjacent(a, b) {
      var k := if b == (a.0 + 1, a.1) then 0 else if b == (a.0 - 1, a.1) then 1
               else if b == (a.0, a.1 + 1) then 2 else 3;
      assert b == Step(a, k);
    }
  }

  function Row(w: nat, y: int): set<Tile>
  {
    set x | 0 <= x < w :: (x, y)
  }

  function Rect(w: nat, h: nat): set<Tile>
  {
    set x, y | 0 <= x < w && 0 <= y < h :: (x, y)
  }

  lemma {:induction false} RowCard(w: nat, y: int)
    ensures |Row(w, y)| == w
  {
    if w > 0 {
      assert Row(w, y) == Row(w - 1, y) + {(w - 1, y)};
      RowCard(w - 1, y);
    } else {
      assert Row(w, y) == {};
    }
  }

  lemma RectSplit(w: nat, h: nat)
    requires h > 0
    ensures Rect(w, h) == Rect(w, h - 1) + Row(w, h - 1)
  {
    forall t | t in Rect(w, h) ensures t in Rect(w, h - 1) + Row(w, h - 1) {
      if t.1 < h - 1 {
        assert t in Rect(w, h - 1);
      } else {
        assert t in Row(w, h - 1);
      }
    }
  }

  lemma {:induction false} RectCard(w: nat, h: nat)
    ensures |Rect(w, h)| == w * h
  {
    if h > 0 {
      RectSplit(w, h);
      assert Rect(w, h - 1) !! Row(w, h - 1);
      RectCard(w, h - 1);
      RowCard(w, h - 1);
      assert w * h == w * (h - 1) + w;
    } else {
      assert Rect(w, h) == {};
    }
  }

  /** The grid has W*H tiles, so a set of grid tiles that misses one of them has fewer
      than W*H elements: the bound that keeps the BFS queues inside their arrays. */
  lemma MissingTileBound(a: set<Tile>, t: Tile)
    requires forall u :: u in a ==> InGrid(u)
    requires InGrid(t) && t !in a
    ensures |a| < W * H
  {
    RectCard(W, H);
    assert Rect(W, H) == GridTiles();
    var b := a + {t};
    assert b <= GridTiles();
    assert GridTiles() == b + (GridTiles() - b);
  }

  lemma {:induction false} DistinctCard(s: seq<Tile>)
    requires Distinct(s)
    ensures |Elems(s)| == |s|
  {
    if |s| > 0 {
      var p := s[..|s| - 1];
      assert Elems(s) == Elems(p) + {s[|s| - 1]};
      assert s[|s| - 1] !in Elems(p);
      DistinctCard(p);
    } else {
      assert Elems(s) == {};
    }
  }
}
