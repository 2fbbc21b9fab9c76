/** src/flow.js: the phase machine. LOBBY, BUILD, TURRET, COMBAT and GAMEOVER, the
    30-second countdown of each playing phase, and the entry banner that holds the
    countdown back until it has scrolled off. */
module Flow {
  import opened Utils
  import opened Pieces
  import opened State
  import opened GameConstants
  import WavePrep
  import Layout
  import CombatPhase

  /** The fields of the state the phase machine owns, as one value. */
  datatype Clock = Clock(phase: Phase, wave: int, gameOver: bool, timerRunning: bool,
                         timeLeft: real, bannerActive: bool, bannerY: real,
                         bannerText: string, placed: int)

  function ClockOf(s: GameState): Clock
    reads s`phase, s`wave, s`gameOver, s`timerRunning, s`timeLeft, s`bannerActive,
          s`bannerY, s`bannerText, s`turretsPlacedThisWave
  {
    Clock(s.phase, s.wave, s.gameOver, s.timerRunning, s.timeLeft, s.bannerActive,
          s.bannerY, s.bannerText, s.turretsPlacedThisWave)
  }

  /** The length of every phase, ROUND_SECONDS. */
  const RoundLength: real := RoundSeconds as real

  const BuildText: string := "Create your fortress"
  const TurretText: string := "Place your turrets"
  const CombatText: string := "Combat!"

  /** The phases that have a countdown and an entry banner. */
  predicate Playing(p: Phase)
  {
    p == Build || p == TurretPlacement || p == Combat
  }

  /** What the phase machine keeps true between any two of its steps: waves count
      from 1; the game-over flag is set exactly in GAMEOVER; a running banner holds
      the countdown; banner and countdown only belong to the playing phases; the
      clock never shows a negative time. */
  predicate Coherent(c: Clock)
  {
    && c.wave >= 1
    && (c.gameOver <==> c.phase == Phase.GameOver)
    && (c.bannerActive ==> !c.timerRunning && Playing(c.phase))
    && (c.timerRunning ==> Playing(c.phase))
    && c.timeLeft >= 0.0
  }

  // ---------------------------------------------------------------------------
  // The transitions, on the clock alone

  /** `startPhaseBanner(text)`: the banner starts one banner height above the
      field and the countdown stops; nothing else moves. */
  function StartBanner(c: Clock, text: string): (r: Clock)
    ensures r.bannerActive && !r.timerRunning && r.bannerY == -(BannerH as real) && r.bannerText == text
    ensures r.(bannerActive := c.bannerActive, timerRunning := c.timerRunning, bannerY := c.bannerY,
               bannerText := c.bannerText) == c
  {
    c.(bannerActive := true, bannerY := -(BannerH as real), bannerText := text, timerRunning := false)
  }

  /** `resetToLobby`: the lobby of wave 1, no game over, a stopped full clock, no
      banner and no turret placed this wave, whatever came before. */
  function LobbyClock(c: Clock): (r: Clock)
    ensures r.phase == Lobby && r.wave == 1 && !r.gameOver && !r.timerRunning
    ensures r.timeLeft == RoundLength && !r.bannerActive && r.placed == 0
    ensures Coherent(r)
  {
    c.(phase := Lobby, wave := 1, gameOver := false, timerRunning := false,
       timeLeft := RoundLength, bannerActive := false, placed := 0)
  }

  /** `beginBuildPhase`: BUILD with a full clock, held by its banner. */
  function BuildEntry(c: Clock): (r: Clock)
    ensures r.phase == Build && r.wave == c.wave && r.placed == c.placed && r.gameOver == c.gameOver
    ensures r.timeLeft == RoundLength && r.bannerActive && !r.timerRunning && r.bannerText == BuildText
    ensures c.wave >= 1 && !c.gameOver ==> Coherent(r)
  {
    StartBanner(c.(phase := Build, timeLeft := RoundLength), BuildText)
  }

  /** `beginTurretPhase`: TURRET with a fresh per-wave count and a full clock,
      held by its banner. */
  function TurretEntry(c: Clock): (r: Clock)
    ensures r.phase == TurretPlacement && r.wave == c.wave && r.placed == 0 && r.gameOver == c.gameOver
    ensures r.timeLeft == RoundLength && r.bannerActive && !r.timerRunning && r.bannerText == TurretText
    ensures c.wave >= 1 && !c.gameOver ==> Coherent(r)
  {
    StartBanner(c.(phase := TurretPlacement, placed := 0, timeLeft := RoundLength), TurretText)
  }

  /** `beginCombatPhase`: COMBAT with a full clock, held by its banner. */
  function CombatEntry(c: Clock): (r: Clock)
    ensures r.phase == Combat && r.wave == c.wave && r.placed == c.placed && r.gameOver == c.gameOver
    ensures r.timeLeft == RoundLength && r.bannerActive && !r.timerRunning && r.bannerText == CombatText
    ensures c.wave >= 1 && !c.gameOver ==> Coherent(r)
  {
    StartBanner(c.(phase := Combat, timeLeft := RoundLength), CombatText)
  }

  /** `endCombatAndStartNextWave`: one wave further, the per-wave count reset by
      the wave preparation, and BUILD entered. */
  function NextWaveClock(c: Clock): (r: Clock)
    ensures r.phase == Build && r.wave == c.wave + 1 && r.placed == 0 && r.bannerActive && !r.timerRunning
    ensures c.wave >= 1 && !c.gameOver ==> Coherent(r)
  {
    BuildEntry(c.(wave := c.wave + 1, placed := 0))
  }

  /** `gameOver(msg)`: GAMEOVER, with the countdown and the banner stopped. */
  function GameOverClock(c: Clock): (r: Clock)
    ensures r.phase == Phase.GameOver && r.gameOver && !r.timerRunning && !r.bannerActive
    ensures r.wave == c.wave && r.timeLeft == c.timeLeft && r.placed == c.placed
    ensures c.wave >= 1 && c.timeLeft >= 0.0 ==> Coherent(r)
  {
    c.(phase := Phase.GameOver, gameOver := true, timerRunning := false, bannerActive := false)
  }

  /** Whether `startGame` goes ahead: only from the lobby or after a game over. */
  predicate CanStart(p: Phase)
  {
    p == Lobby || p == Phase.GameOver
  }

  /** `startGame`: from the lobby or a finished game, wave 1 in BUILD (the fortress
      reset zeroes the per-wave count); from any other phase nothing changes. */
  function StartClock(c: Clock): (r: Clock)
    ensures !CanStart(c.phase) ==> r == c
    ensures CanStart(c.phase) ==>
      r.phase == Build && r.wave == 1 && !r.gameOver && r.bannerActive && !r.timerRunning && r.placed == 0
    ensures Coherent(c) ==> Coherent(r)
  {
    if !CanStart(c.phase) then c
    else BuildEntry(c.(gameOver := false, wave := 1, placed := 0))
  }

  /** `onPhaseTimerExpired`: BUILD ends the game without a courtyard and moves on to
      TURRET with one; TURRET moves on to COMBAT; COMBAT to the BUILD of the next
      wave; the other phases stay as they are. */
  function ExpiredClock(c: Clock, hasCourtyard: bool): (r: Clock)
    ensures c.phase == Build && !hasCourtyard ==> r.phase == Phase.GameOver && r.gameOver
    ensures c.phase == Build && hasCourtyard ==> r.phase == TurretPlacement && r.placed == 0
    ensures c.phase == TurretPlacement ==> r.phase == Combat
    ensures c.phase == Combat ==> r.phase == Build && r.wave == c.wave + 1
    ensures c.phase != Combat ==> r.wave == c.wave
    ensures !Playing(c.phase) ==> r == c
    ensures Coherent(c) ==> Coherent(r)
  {
    match c.phase
    case Build => if !hasCourtyard then GameOverClock(c) else TurretEntry(c)
    case TurretPlacement => CombatEntry(c)
    case Combat => NextWaveClock(c)
    case _ => c
  }

  /** `onBannerFinishedStartTimer`: in a playing phase of a game still on, the
      countdown starts from a full clock; otherwise nothing changes. */
  function BannerDoneClock(c: Clock): (r: Clock)
    ensures !c.gameOver && Playing(c.phase) ==> r == c.(timerRunning := true, timeLeft := RoundLength)
    ensures c.gameOver || !Playing(c.phase) ==> r == c
    ensures Coherent(c) && !c.bannerActive ==> Coherent(r)
  {
    if c.gameOver then c
    else if Playing(c.phase) then c.(timerRunning := true, timeLeft := RoundLength)
    else c
  }

  /** Between the banner finishing and the next expiry the countdown only runs
      down: a whole wave is BUILD, TURRET, COMBAT, in that order, each entered with
      its banner. */
  lemma WaveCycle(c: Clock)
    requires Coherent(c) && c.phase == Build
    ensures var t := ExpiredClock(c, true);
      var k := ExpiredClock(BannerDoneClock(t.(bannerActive := false)), true);
      var b := ExpiredClock(BannerDoneClock(k.(bannerActive := false)), true);
      && t.phase == TurretPlacement && k.phase == Combat && b.phase == Build
      && b.wave == c.wave + 1 && Coherent(b) && b.bannerActive
  {
    var t := ExpiredClock(c, true);
    assert Coherent(t);
    var t1 := BannerDoneClock(t.(bannerActive := false));
    var k := ExpiredClock(t1, true);
    assert Coherent(k);
    var k1 := BannerDoneClock(k.(bannerActive := false));
    assert k1.wave == c.wave;
  }

  // ---------------------------------------------------------------------------
  // The operations on the state

  /** `startPhaseBanner(text)`. */
  method StartPhaseBanner(s: GameState, text: string)
    modifies s`bannerActive, s`bannerY, s`bannerText, s`timerRunning
    ensures ClockOf(s) == StartBanner(old(ClockOf(s)), text)
  {
    s.bannerActive := true;
    s.bannerY := -(BannerH as real);
    s.bannerText := text;
    s.timerRunning := false;
  }

  /** `buildFreshLayout()` of src/main.js: a new layout generator seeded from the
      environment's random source (here the parameter `freshSeed`) lays out the
      island. */
  method BuildFreshLayout(s: GameState, freshSeed: int, geo: Geometry)
    modifies s`wallTiles, s`courtyardRegions, s`boats, s`renderSeed
    ensures s.wallTiles == {} && s.courtyardRegions == []
    ensures s.boats == Layout.LayoutBoats(s, geo, Uint32(freshSeed), Layout.BoatCount as nat)
    ensures s.renderSeed == SeedAfter(Uint32(freshSeed), 3 * Layout.BoatCount)
  {
    var layoutRng := new Rng(freshSeed);
    Layout.GenerateLayout(s, layoutRng, geo);
  }

  /** The fortress part of `resetToLobby` and `startGame`: a fresh layout when asked
      for, then an empty fortress with its courtyards recomputed (none) and a new
      piece. */
  method RenewFortress(s: GameState, randomize: bool, freshSeed: int, pieceRng: Rng, geo: Geometry)
    requires pieceRng.Valid()
    modifies s`wallTiles, s`courtyardRegions, s`boats, s`renderSeed, s`turrets, s`projectiles,
             s`courtyardSet, s`turretsPlacedThisWave, s`turretDir, s`hover, s`piece, pieceRng
    ensures WavePrep.FortressCleared(s) && s.CourtyardsCurrent()
    ensures randomize ==> s.renderSeed == SeedAfter(Uint32(freshSeed), 3 * Layout.BoatCount)
    ensures !randomize ==> s.renderSeed == old(s.renderSeed)
    ensures pieceRng.Valid() && pieceRng.seed == NextSeed(old(pieceRng.seed))
    ensures s.piece == Piece(Types[Draw(pieceRng.seed, 0, |Types| - 1)], 0)
  {
    if randomize {
      BuildFreshLayout(s, freshSeed, geo);
    }
    WavePrep.ResetFortressForNewGame(s, pieceRng);
  }

  /** `resetToLobby(randomize)`: the lobby clock, and the fortress renewed. */
  method ResetToLobby(s: GameState, randomize: bool, freshSeed: int, pieceRng: Rng, geo: Geometry)
    requires pieceRng.Valid()
    modifies s`phase, s`wave, s`gameOver, s`timerRunning, s`timeLeft, s`bannerActive,
             s`turretsPlacedThisWave
    modifies s`wallTiles, s`courtyardRegions, s`boats, s`renderSeed, s`turrets, s`projectiles,
             s`courtyardSet, s`turretDir, s`hover, s`piece, pieceRng
    ensures ClockOf(s) == LobbyClock(old(ClockOf(s)))
    ensures WavePrep.FortressCleared(s) && s.CourtyardsCurrent()
    ensures randomize ==> s.renderSeed == SeedAfter(Uint32(freshSeed), 3 * Layout.BoatCount)
    ensures !randomize ==> s.renderSeed == old(s.renderSeed)
    ensures pieceRng.Valid() && pieceRng.seed == NextSeed(old(pieceRng.seed))
    ensures s.piece == Piece(Types[Draw(pieceRng.seed, 0, |Types| - 1)], 0)
  {
    EnterLobby(s);
    RenewFortress(s, randomize, freshSeed, pieceRng, geo);
  }

  /** The clock part of `resetToLobby`. */
  method EnterLobby(s: GameState)
    modifies s`phase, s`wave, s`gameOver, s`timerRunning, s`timeLeft, s`bannerActive,
             s`turretsPlacedThisWave
    ensures ClockOf(s) == LobbyClock(old(ClockOf(s)))
  {
    s.phase := Lobby;
    s.wave := 1;
    s.gameOver := false;
    s.timerRunning := false;
    s.timeLeft := RoundLength;
    s.bannerActive := false;
    s.turretsPlacedThisWave := 0;
  }

  /** `beginBuildPhase()`. */
  method BeginBuildPhase(s: GameState)
    modifies s`phase, s`timeLeft, s`bannerActive, s`bannerY, s`bannerText, s`timerRunning
    ensures ClockOf(s) == BuildEntry(old(ClockOf(s)))
  {
    s.phase := Build;
    s.timeLeft := RoundLength;
    StartPhaseBanner(s, BuildText);
  }

  /** `beginTurretPhase()`. The caps it reads only feed the status line. */
  method BeginTurretPhase(s: GameState)
    modifies s`phase, s`turretsPlacedThisWave, s`timeLeft, s`bannerActive, s`bannerY,
             s`bannerText, s`timerRunning
    ensures ClockOf(s) == TurretEntry(old(ClockOf(s)))
  {
    s.phase := TurretPlacement;
    s.turretsPlacedThisWave := 0;
    s.timeLeft := RoundLength;
    StartPhaseBanner(s, TurretText);
  }

  /** `beginCombatPhase()`: COMBAT, and the wave's fleet replaces the boats. */
  method BeginCombatPhase(s: GameState, combatRng: Rng, geo: Geometry)
    requires combatRng.Valid()
    modifies s`phase, s`timeLeft, s`bannerActive, s`bannerY, s`bannerText, s`timerRunning,
             s`boats, combatRng
    ensures ClockOf(s) == CombatEntry(old(ClockOf(s)))
    ensures combatRng.Valid()
    ensures combatRng.seed == SeedAfter(old(combatRng.seed), 5 * CombatPhase.FleetSize(s.wave))
    ensures |s.boats| == CombatPhase.FleetSize(s.wave)
    ensures CombatPhase.FleetSize(s.wave) > 0 ==>
      s.boats == CombatPhase.Fleet(s, geo, s.wave, old(combatRng.seed), CombatPhase.FleetSize(s.wave))
    ensures forall b :: b in s.boats ==> b.Enemy? && b.hp == EnemyHealthForWave(s.wave)
  {
    s.phase := Combat;
    s.timeLeft := RoundLength;
    ghost var seed := combatRng.seed;
    CombatPhase.SpawnEnemiesForWave(s, combatRng, geo, s.wave);
    forall b | b in s.boats ensures b.Enemy? && b.hp == EnemyHealthForWave(s.wave) {
      var i :| 0 <= i < |s.boats| && s.boats[i] == b;
      CombatPhase.FleetStats(s, geo, s.wave, seed, i);
    }
    StartPhaseBanner(s, CombatText);
  }

  /** `endCombatAndStartNextWave()`: one wave further, the fortress prepared for it
      (walls kept, turrets aged) and BUILD entered. */
  method EndCombatAndStartNextWave(s: GameState, pieceRng: Rng)
    requires pieceRng.Valid()
    modifies s`wave, s`phase, s`timeLeft, s`bannerActive, s`bannerY, s`bannerText, s`timerRunning
    modifies s`projectiles, s`boats, s`turrets, s`courtyardRegions, s`courtyardSet,
             s`turretsPlacedThisWave, s`piece, pieceRng
    ensures ClockOf(s) == NextWaveClock(old(ClockOf(s)))
    ensures s.projectiles == [] && s.boats == [] && s.turrets == WavePrep.Aged(old(s.turrets))
    ensures s.CourtyardsCurrent()
    ensures pieceRng.Valid() && pieceRng.seed == NextSeed(old(pieceRng.seed))
    ensures s.piece == Piece(Types[Draw(pieceRng.seed, 0, |Types| - 1)], 0)
  {
    s.wave := s.wave + 1;
    WavePrep.PrepareNextWaveKeepWalls(s, pieceRng);
    assert ClockOf(s) == old(ClockOf(s)).(wave := old(s.wave) + 1, placed := 0);
    BeginBuildPhase(s);
  }

  /** `startGame(randomize)`: ignored unless in the lobby or after a game over;
      otherwise wave 1 starts in BUILD on a fresh (optionally re-laid) island. */
  method StartGame(s: GameState, randomize: bool, freshSeed: int, pieceRng: Rng, geo: Geometry)
    requires pieceRng.Valid()
    modifies s`phase, s`wave, s`gameOver, s`timerRunning, s`timeLeft, s`bannerActive,
             s`bannerY, s`bannerText, s`turretsPlacedThisWave
    modifies s`wallTiles, s`courtyardRegions, s`boats, s`renderSeed, s`turrets, s`projectiles,
             s`courtyardSet, s`turretDir, s`hover, s`piece, pieceRng
    ensures ClockOf(s) == StartClock(old(ClockOf(s)))
    ensures pieceRng.Valid()
    ensures !CanStart(old(s.phase)) ==>
      unchanged(s) && pieceRng.seed == old(pieceRng.seed)
    ensures CanStart(old(s.phase)) ==>
      && WavePrep.FortressCleared(s) && s.CourtyardsCurrent()
      && pieceRng.seed == NextSeed(old(pieceRng.seed))
      && s.piece == Piece(Types[Draw(pieceRng.seed, 0, |Types| - 1)], 0)
    ensures CanStart(old(s.phase)) && randomize ==>
      s.renderSeed == SeedAfter(Uint32(freshSeed), 3 * Layout.BoatCount)
    ensures CanStart(old(s.phase)) && !randomize ==> s.renderSeed == old(s.renderSeed)
  {
    if s.phase != Lobby && s.phase != Phase.GameOver {
      return;
    }
    RenewFortress(s, randomize, freshSeed, pieceRng, geo);
    FirstWave(s);
  }

  /** The clock part of `startGame`: the game on again at wave 1, in BUILD. */
  method FirstWave(s: GameState)
    modifies s`phase, s`wave, s`gameOver, s`timerRunning, s`timeLeft, s`bannerActive,
             s`bannerY, s`bannerText
    ensures ClockOf(s) == BuildEntry(old(ClockOf(s)).(gameOver := false, wave := 1))
  {
    s.gameOver := false;
    s.wave := 1;
    BeginBuildPhase(s);
  }

  /** `gameOver(msg)`; the message only goes to the status line. */
  method GameOver(s: GameState)
    modifies s`phase, s`gameOver, s`timerRunning, s`bannerActive
    ensures ClockOf(s) == GameOverClock(old(ClockOf(s)))
  {
    s.phase := Phase.GameOver;
    s.gameOver := true;
    s.timerRunning := false;
    s.bannerActive := false;
  }

  /** The fields `onPhaseTimerExpired` may change, through the phase it enters. */
  method OnPhaseTimerExpired(s: GameState, pieceRng: Rng, combatRng: Rng, geo: Geometry)
    requires pieceRng.Valid() && combatRng.Valid() && pieceRng != combatRng
    modifies s`phase, s`wave, s`gameOver, s`timerRunning, s`timeLeft, s`bannerActive,
             s`bannerY, s`bannerText, s`turretsPlacedThisWave
    modifies s`projectiles, s`boats, s`turrets, s`courtyardRegions, s`courtyardSet, s`piece,
             pieceRng, combatRng
    ensures ClockOf(s) == ExpiredClock(old(ClockOf(s)), |old(s.courtyardRegions)| > 0)
    ensures pieceRng.Valid() && combatRng.Valid()
    ensures old(s.CourtyardsCurrent()) || old(s.phase) == Combat ==> s.CourtyardsCurrent()
    ensures old(s.phase) == TurretPlacement ==>
      && |s.boats| == CombatPhase.FleetSize(s.wave)
      && combatRng.seed == SeedAfter(old(combatRng.seed), 5 * CombatPhase.FleetSize(s.wave))
      && (CombatPhase.FleetSize(s.wave) > 0 ==>
            s.boats == CombatPhase.Fleet(s, geo, s.wave, old(combatRng.seed), CombatPhase.FleetSize(s.wave)))
    ensures old(s.phase) != TurretPlacement ==> combatRng.seed == old(combatRng.seed)
    ensures old(s.phase) == Combat ==>
      && s.projectiles == [] && s.boats == [] && s.turrets == WavePrep.Aged(old(s.turrets))
      && pieceRng.seed == NextSeed(old(pieceRng.seed))
      && s.piece == Piece(Types[Draw(pieceRng.seed, 0, |Types| - 1)], 0)
    ensures old(s.phase) != Combat ==>
      && s.turrets == old(s.turrets) && s.courtyardRegions == old(s.courtyardRegions)
      && s.courtyardSet == old(s.courtyardSet) && s.projectiles == old(s.projectiles)
      && s.piece == old(s.piece) && pieceRng.seed == old(pieceRng.seed)
    ensures old(s.phase) != TurretPlacement && old(s.phase) != Combat ==> s.boats == old(s.boats)
  {
    if s.phase == Build {
      if |s.courtyardRegions| == 0 {
        GameOver(s);
        return;
      }
      BeginTurretPhase(s);
      return;
    }
    if s.phase == TurretPlacement {
      BeginCombatPhase(s, combatRng, geo);
      return;
    }
    if s.phase == Combat {
      EndCombatAndStartNextWave(s, pieceRng);
      return;
    }
  }

  /** `onBannerFinishedStartTimer()`. */
  method OnBannerFinishedStartTimer(s: GameState)
    modifies s`timerRunning, s`timeLeft
    ensures ClockOf(s) == BannerDoneClock(old(ClockOf(s)))
  {
    if s.gameOver {
      return;
    }
    if s.phase == Build || s.phase == TurretPlacement || s.phase == Combat {
      s.timerRunning := true;
      s.timeLeft := RoundLength;
    }
  }
}
