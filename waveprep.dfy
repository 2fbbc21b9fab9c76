/** src/wavePrep.js: clearing the fortress for a new game, and preparing the next
    wave while keeping the walls and ageing the turrets. */
module WavePrep {
  import opened Grid
  import opened Regions
  import opened Utils
  import opened Pieces
  import opened State
  import opened Courtyard
  import TurretPhase
  import BuildPhase

  // ---------------------------------------------------------------------------
  // Ageing, specified

  /** One turret one wave older: its life drops by one, and it is gone when none is
      left. */
  function AgeOne(t: Turret): seq<Turret>
  {
    if t.life - 1 > 0 then [t.(life := t.life - 1)] else []
  }

  /** Every turret aged by one wave, the survivors in their order. */
  function Aged(ts: seq<Turret>): seq<Turret>
  {
    if |ts| == 0 then [] else AgeOne(ts[0]) + Aged(ts[1..])
  }

  /** Ageing never adds a turret, and removes exactly those whose life runs out. */
  lemma {:induction false} AgedLength(ts: seq<Turret>)
    ensures |Aged(ts)| <= |ts|
    ensures |Aged(ts)| == |ts| <==> forall i :: 0 <= i < |ts| ==> ts[i].life > 1
  {
    if |ts| > 0 {
      AgedLength(ts[1..]);
      if forall i :: 0 <= i < |ts| ==> ts[i].life > 1 {
        assert forall i :: 0 <= i < |ts| - 1 ==> ts[1..][i].life > 1 by {
          forall i | 0 <= i < |ts| - 1 ensures ts[1..][i].life > 1 {
            assert ts[1..][i] == ts[i + 1];
          }
        }
      } else {
        var i :| 0 <= i < |ts| && ts[i].life <= 1;
        if i > 0 {
          assert ts[1..][i - 1] == ts[i];
        }
      }
    }
  }

  /** A turret is there after ageing iff it was there with one more life and that
      life was above one: every life drops by exactly one and the turrets reaching
      zero are gone. */
  lemma {:induction false} AgedMembership(ts: seq<Turret>, u: Turret)
    ensures u in Aged(ts) <==> u.life > 0 && u.(life := u.life + 1) in ts
  {
    if |ts| > 0 {
      AgedMembership(ts[1..], u);
      assert ts == [ts[0]] + ts[1..];
      if u.(life := u.life + 1) == ts[0] {
        assert ts[0].(life := ts[0].life - 1) == u;
      }
    }
  }

  /** Ageing keeps the footprints of the survivors, so footprints that were apart
      stay apart. */
  lemma {:induction false} AgedKeepsApart(ts: seq<Turret>)
    requires TurretPhase.TurretsApart(ts)
    ensures TurretPhase.TurretsApart(Aged(ts))
  {
    if |ts| > 0 {
      var rest := ts[1..];
      assert TurretPhase.TurretsApart(rest) by {
        forall i, j | 0 <= i < j < |rest|
          ensures Elems(TurretPhase.Footprint(rest[i])) !! Elems(TurretPhase.Footprint(rest[j]))
        {
          assert rest[i] == ts[i + 1] && rest[j] == ts[j + 1];
        }
      }
      AgedKeepsApart(rest);
      var a, b := AgeOne(ts[0]), Aged(rest);
      forall i, j | 0 <= i < j < |a + b|
        ensures Elems(TurretPhase.Footprint((a + b)[i])) !! Elems(TurretPhase.Footprint((a + b)[j]))
      {
        if i >= |a| {
          assert (a + b)[i] == b[i - |a|] && (a + b)[j] == b[j - |a|];
        } else {
          var v := b[j - 1];
          assert (a + b)[j] == v && v in b;
          AgedMembership(rest, v);
          var k :| 0 <= k < |rest| && rest[k] == v.(life := v.life + 1);
          assert ts[k + 1] == rest[k];
          assert TurretPhase.Footprint(v) == TurretPhase.Footprint(ts[k + 1]);
          assert TurretPhase.Footprint((a + b)[i]) == TurretPhase.Footprint(ts[0]);
        }
      }
    }
  }

  /** A turret placed with three lives lasts through two preparations and is gone
      after the third. */
  lemma TurretLifespan(t: Turret)
    requires t.life == 3
    ensures |Aged([t])| == 1 && |Aged(Aged([t]))| == 1 && Aged(Aged(Aged([t]))) == []
  {
    assert Aged([t]) == [t.(life := 2)];
    assert Aged([t.(life := 2)]) == [t.(life := 1)];
    assert Aged([t.(life := 1)]) == [];
  }

  // ---------------------------------------------------------------------------
  // The operations

  /** The state `resetFortressForNewGame` leaves, apart from the piece: no walls,
      turrets, projectiles, boats or courtyards, a zero counter, horizontal turrets
      and no hover. */
  twostate predicate FortressCleared(s: GameState)
    reads s`wallTiles, s`turrets, s`projectiles, s`boats, s`courtyardRegions, s`courtyardSet,
          s`turretsPlacedThisWave, s`turretDir, s`hover
  {
    && s.wallTiles == {} && s.turrets == [] && s.projectiles == [] && s.boats == []
    && s.courtyardRegions == [] && s.courtyardSet == {}
    && s.turretsPlacedThisWave == 0 && s.turretDir == 0 && s.hover == NoHover
  }

  /** `resetFortressForNewGame`: everything the fortress holds is cleared, the next
      piece is drawn, and the courtyards are recomputed, which with no walls gives
      none at all. */
  method ResetFortressForNewGame(s: GameState, pieceRng: Rng)
    requires pieceRng.Valid()
    modifies s`wallTiles, s`turrets, s`projectiles, s`boats, s`courtyardRegions, s`courtyardSet,
             s`turretsPlacedThisWave, s`turretDir, s`hover, s`piece, pieceRng
    ensures FortressCleared(s) && s.CourtyardsCurrent()
    ensures pieceRng.Valid() && pieceRng.seed == NextSeed(old(pieceRng.seed))
    ensures s.piece == Piece(Types[Draw(pieceRng.seed, 0, |Types| - 1)], 0)
  {
    s.wallTiles := {};
    s.turrets := [];
    s.projectiles := [];
    s.boats := [];
    s.courtyardRegions := [];
    s.courtyardSet := {};
    s.turretsPlacedThisWave := 0;
    s.turretDir := 0;
    s.hover := NoHover;
    BuildPhase.NewPiece(s, pieceRng);
    RefreshCourtyards(s);
    NoWallsNoCourtyards(s.land);
    EmptyLayout(s.courtyardRegions, Enclosed({}, s.land));
  }

  /** A layout of nothing has no regions: every region has a first tile in S. */
  lemma EmptyLayout(regions: seq<Region>, S: set<Tile>)
    requires IsLayoutOf(regions, S)
    ensures S == {} ==> regions == []
  {
    if |regions| > 0 {
      assert LargeRegionAt(regions, 0, S);
      assert regions[0].tiles[0] in S;
    }
  }

  /** `prepareNextWaveKeepWalls`: the walls stay, projectiles and boats go, every
      turret ages by one wave, the courtyards are recomputed, the per-wave counter
      is reset and the next piece is drawn. */
  method PrepareNextWaveKeepWalls(s: GameState, pieceRng: Rng)
    requires pieceRng.Valid()
    modifies s`projectiles, s`boats, s`turrets, s`courtyardRegions, s`courtyardSet,
             s`turretsPlacedThisWave, s`piece, pieceRng
    ensures s.projectiles == [] && s.boats == []
    ensures s.turrets == Aged(old(s.turrets))
    ensures s.CourtyardsCurrent()
    ensures old(s.CourtyardsCurrent()) ==> s.courtyardSet == old(s.courtyardSet)
    ensures s.turretsPlacedThisWave == 0
    ensures pieceRng.Valid() && pieceRng.seed == NextSeed(old(pieceRng.seed))
    ensures s.piece == Piece(Types[Draw(pieceRng.seed, 0, |Types| - 1)], 0)
  {
    s.projectiles := [];
    s.boats := [];
    AgeTurrets(s);
    RefreshCourtyards(s);
    s.turretsPlacedThisWave := 0;
    BuildPhase.NewPiece(s, pieceRng);
  }

  /** The ageing loop of `prepareNextWaveKeepWalls`, from the last turret down:
      the life drops by one and the turret is spliced out once it is gone. */
  method AgeTurrets(s: GameState)
    modifies s`turrets
    ensures s.turrets == Aged(old(s.turrets))
  {
    ghost var ts := s.turrets;
    var i := |s.turrets|;
    while i > 0
      invariant 0 <= i <= |ts|
      invariant s.turrets == ts[..i] + Aged(ts[i..])
    {
      i := i - 1;
      assert ts[i..][1..] == ts[i + 1..];
      var t := s.turrets[i];
      assert t == ts[i];
      t := t.(life := t.life - 1);
      if t.life <= 0 {
        s.turrets := s.turrets[..i] + s.turrets[i + 1..];
        assert s.turrets == ts[..i] + Aged(ts[i..]);
      } else {
        s.turrets := s.turrets[i := t];
        assert s.turrets == ts[..i] + Aged(ts[i..]);
      }
    }
    assert ts[..0] == [] && ts[0..] == ts;
  }
}
