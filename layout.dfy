/** src/layout.js: a fresh layout, with no walls, no courtyards and six scenery
    boats on a ring around the island. */
module Layout {
  import opened Grid
  import opened Regions
  import opened Utils
  import opened State

  const BoatCount: int := 6

  /** The boat `generateLayout` pushes as boat i, given its three draws u1, u2 and
      u3 in [0, 1): the angle of its sixth of the circle moved on by up to 0.35, a
      distance of 1.25 to 1.35 radii along it, heading inward, and a bob phase. */
  function BoatFromDraws(s: GameState, geo: Geometry, i: nat, u1: real, u2: real, u3: real): Boat
  {
    var angle := (i as real / BoatCount as real) * geo.pi * 2.0 + u1 * 0.35;
    var rr := 1.25 + u2 * 0.10;
    Scenery(s.cx + geo.cos(angle) * s.rx * rr, s.cy + geo.sin(angle) * s.ry * rr,
            angle + geo.pi, u3 * geo.pi * 2.0)
  }

  /** Boat i of a layout whose generator started at `seed`. It takes the draws
      3i + 1, 3i + 2 and 3i + 3. */
  function LayoutBoat(s: GameState, geo: Geometry, seed: int, i: nat): Boat
    requires 0 <= seed < Modulus
  {
    BoatFromDraws(s, geo, i, Unit(SeedAfter(seed, 3 * i + 1)), Unit(SeedAfter(seed, 3 * i + 2)),
                  Unit(SeedAfter(seed, 3 * i + 3)))
  }

  /** The first n boats of the layout. */
  function LayoutBoats(s: GameState, geo: Geometry, seed: int, n: nat): seq<Boat>
    requires 0 <= seed < Modulus
  {
    seq(n, i requires 0 <= i < n => LayoutBoat(s, geo, seed, i))
  }

  /** Each layout boat is scenery; its heading points inward, at its angle plus a
      half turn, and that angle lies in the boat's sixth of the circle, moved on by
      less than 0.35; its bob phase lies in [0, 2 pi). */
  lemma BoatFromDrawsRanges(s: GameState, geo: Geometry, i: nat, u1: real, u2: real, u3: real)
    requires 0.0 <= u1 < 1.0 && 0.0 <= u3 < 1.0 && geo.pi > 0.0
    ensures BoatFromDraws(s, geo, i, u1, u2, u3).Scenery?
    ensures var b := BoatFromDraws(s, geo, i, u1, u2, u3);
      var base := (i as real / BoatCount as real) * geo.pi * 2.0;
      && base <= b.dir - geo.pi < base + 0.35
      && 0.0 <= b.bob < geo.pi * 2.0
  {
    var b := BoatFromDraws(s, geo, i, u1, u2, u3);
    var base := (i as real / BoatCount as real) * geo.pi * 2.0;
    assert b.dir - geo.pi == base + u1 * 0.35;
    MulBelow(u3, geo.pi);
    var m := u3 * geo.pi;
    assert b.bob == m * 2.0;
    assert 0.0 <= m * 2.0 < geo.pi * 2.0;
  }

  /** The same for boat i of a layout. */
  lemma LayoutBoatRanges(s: GameState, geo: Geometry, seed: int, i: nat)
    requires 0 <= seed < Modulus && geo.pi > 0.0
    ensures LayoutBoat(s, geo, seed, i).Scenery?
    ensures var b := LayoutBoat(s, geo, seed, i);
      var base := (i as real / BoatCount as real) * geo.pi * 2.0;
      && base <= b.dir - geo.pi < base + 0.35
      && 0.0 <= b.bob < geo.pi * 2.0
  {
    BoatFromDrawsRanges(s, geo, i, Unit(SeedAfter(seed, 3 * i + 1)), Unit(SeedAfter(seed, 3 * i + 2)),
                        Unit(SeedAfter(seed, 3 * i + 3)));
  }

  /** `generateLayout(state, rng)`: the walls and the courtyard regions are cleared
      (the courtyard set is not), the boats are replaced by the six layout boats,
      and the render seed is the generator's seed after the 18 draws. */
  method GenerateLayout(s: GameState, rng: Rng, geo: Geometry)
    requires rng.Valid()
    modifies s`wallTiles, s`courtyardRegions, s`boats, s`renderSeed, rng
    ensures s.wallTiles == {} && s.courtyardRegions == []
    ensures s.boats == LayoutBoats(s, geo, old(rng.seed), BoatCount as nat)
    ensures rng.Valid() && rng.seed == SeedAfter(old(rng.seed), 3 * BoatCount)
    ensures s.renderSeed == rng.seed
  {
    ghost var seed := rng.seed;
    s.wallTiles := {};
    s.courtyardRegions := [];
    s.boats := [];
    for i := 0 to BoatCount
      invariant s.wallTiles == {} && s.courtyardRegions == []
      invariant rng.Valid() && rng.seed == SeedAfter(seed, 3 * i)
      invariant s.boats == LayoutBoats(s, geo, seed, i)
    {
      var b := DrawLayoutBoat(s, rng, geo, i, seed);
      LayoutBoatsSnoc(s, geo, seed, i);
      s.boats := s.boats + [b];
    }
    s.renderSeed := Uint32(rng.seed);
  }

  /** One iteration of the loop of `generateLayout`: three draws and the boat
      they give. */
  method DrawLayoutBoat(s: GameState, rng: Rng, geo: Geometry, i: nat, ghost seed: int)
    returns (b: Boat)
    requires rng.Valid() && 0 <= seed < Modulus && rng.seed == SeedAfter(seed, 3 * i)
    modifies rng
    ensures rng.Valid() && rng.seed == SeedAfter(seed, 3 * i + 3)
    ensures b == LayoutBoat(s, geo, seed, i)
  {
    var r1 := rng.Next();
    assert rng.seed == SeedAfter(seed, 3 * i + 1);
    var r2 := rng.Next();
    assert rng.seed == SeedAfter(seed, 3 * i + 2);
    var r3 := rng.Next();
    assert rng.seed == SeedAfter(seed, 3 * i + 3);
    b := BoatFromDraws(s, geo, i, r1, r2, r3);
  }

  lemma LayoutBoatsSnoc(s: GameState, geo: Geometry, seed: int, i: nat)
    requires 0 <= seed < Modulus
    ensures LayoutBoats(s, geo, seed, i + 1) == LayoutBoats(s, geo, seed, i) + [LayoutBoat(s, geo, seed, i)]
  {
  }

  /** A layout has six boats and leaves no walls, so no courtyard regions: the
      cleared regions are the layout of the cleared walls. */
  lemma LayoutShape(s: GameState, geo: Geometry, seed: int)
    requires 0 <= seed < Modulus
    ensures |LayoutBoats(s, geo, seed, BoatCount as nat)| == 6
    ensures IsCourtyardLayout([], {}, s.land)
  {
    NoWallsNoCourtyards(s.land);
  }
}
