/** ChatGptRampart/src/courtyard.js: `rebuildCourtyardSet`, the flat set of every
    courtyard tile, and the recompute-then-rebuild pair every change of walls or
    turrets is followed by. */
module Courtyard {
  import opened Grid
  import opened Regions
  import opened State
  import Enclosure

  /** The tiles of the first i + 1 regions are those of the first i and those of
      region i. */
  lemma TilesOfSnoc(regions: seq<Region>, i: int)
    requires 0 <= i < |regions|
    ensures TilesOf(regions[..i + 1]) == TilesOf(regions[..i]) + Elems(regions[i].tiles)
  {
    var a, b := regions[..i + 1], regions[..i];
    forall t | t in TilesOf(a) ensures t in TilesOf(b) + Elems(regions[i].tiles) {
      var k :| 0 <= k < |a| && t in a[k].tiles;
      if k < i {
        assert b[k] == a[k];
      }
    }
    forall t | t in TilesOf(b) + Elems(regions[i].tiles) ensures t in TilesOf(a) {
      if t in TilesOf(b) {
        var k :| 0 <= k < |b| && t in b[k].tiles;
        assert a[k] == b[k];
      } else {
        assert t in a[i].tiles;
      }
    }
  }

  /** `rebuildCourtyardSet(state)`: the old contents are dropped and every tile of
      every region is added, so the set ends up exactly the union of the regions'
      tiles; the regions themselves are only read. */
  method RebuildCourtyardSet(s: GameState)
    modifies s`courtyardSet
    ensures s.courtyardSet == TilesOf(s.courtyardRegions)
  {
    s.courtyardSet := {};
    var regions := s.courtyardRegions;
    for i := 0 to |regions|
      invariant s.courtyardSet == TilesOf(regions[..i])
    {
      var tiles := regions[i].tiles;
      for j := 0 to |tiles|
        invariant s.courtyardSet == TilesOf(regions[..i]) + Elems(tiles[..j])
      {
        assert tiles[..j + 1] == tiles[..j] + [tiles[j]];
        s.courtyardSet := s.courtyardSet + {tiles[j]};
      }
      assert tiles[..|tiles|] == tiles;
      TilesOfSnoc(regions, i);
    }
    assert regions[..|regions|] == regions;
  }

  /** `recomputeCourtyards(state)` followed by `rebuildCourtyardSet(state)`, the pair
      of calls that follows every change of walls or turrets. Afterwards the
      courtyard fields agree with the walls; when the walls did not change and the
      fields already agreed, the courtyard set and the regions (as tile sets) are
      the ones there were before. */
  method RefreshCourtyards(s: GameState)
    modifies s`courtyardRegions, s`courtyardSet
    ensures s.Refreshed(old(s.CourtyardsCurrent()), old(s.courtyardSet), old(s.courtyardRegions))
  {
    ghost var before := s.courtyardRegions;
    Enclosure.RecomputeCourtyards(s);
    RebuildCourtyardSet(s);
    if old(s.CourtyardsCurrent()) {
      LayoutUnique(before, s.courtyardRegions, s.wallTiles, s.land);
    }
  }
}
