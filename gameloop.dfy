/** ChatGptRampart/src/gameLoop.js: one frame of the game loop. The step is capped
    at 0.05 s; the entry banner scrolls and, once off the field, starts the phase
    countdown; the turret phase is forced to end when its caps are reached; the
    combat simulation runs while nothing holds it back; the countdown runs and
    fires the phase's expiry. */
module GameLoop {
  import opened Grid
  import opened Utils
  import Pieces
  import opened State
  import opened GameConstants
  import opened Flow
  import TurretPhase
  import CombatPhase
  import WavePrep

  /** The largest step one frame takes, in seconds. */
  const MaxStep: real := 0.05

  /** `Math.min(0.05, (t - lastT) / 1000)`: the time since the last frame, in
      seconds, capped at MaxStep. */
  function StepSize(t: real, lastT: real): (dt: real)
    ensures dt <= MaxStep
    ensures dt == MaxStep || dt == (t - lastT) / 1000.0
    ensures t >= lastT ==> 0.0 <= dt
    ensures (t - lastT) / 1000.0 <= MaxStep ==> dt == (t - lastT) / 1000.0
  {
    var elapsed := (t - lastT) / 1000.0;
    if elapsed < MaxStep then elapsed else MaxStep
  }

  /** The closure variable `lastT` of `startGameLoop`: the time of the last frame. */
  class FrameClock {
    var lastT: real

    /** `let lastT = performance.now()`, with the clock reading as a parameter. */
    constructor (now: real)
      ensures lastT == now
    {
      lastT := now;
    }
  }

  // ---------------------------------------------------------------------------
  // The banner and the countdown, on the clock alone

  /** The banner scrolls 140 px/s; once it reaches the bottom of the field it goes
      away and the countdown of the phase starts. Without a banner nothing moves. */
  function ScrollBanner(c: Clock, dt: real): (r: Clock)
    ensures !c.bannerActive ==> r == c
    ensures c.bannerActive && c.bannerY + BannerSpeed as real * dt < InternalH as real ==>
      r == c.(bannerY := c.bannerY + BannerSpeed as real * dt)
    ensures c.bannerActive && c.bannerY + BannerSpeed as real * dt >= InternalH as real ==>
      !r.bannerActive && r.bannerY == c.bannerY + BannerSpeed as real * dt
    ensures (c.bannerActive && c.bannerY + BannerSpeed as real * dt >= InternalH as real
             && !c.gameOver && Playing(c.phase)) ==> r.timerRunning && r.timeLeft == RoundLength
    ensures r.phase == c.phase && r.wave == c.wave && r.gameOver == c.gameOver && r.placed == c.placed
    ensures Coherent(c) ==> Coherent(r)
  {
    if !c.bannerActive then c
    else
      var moved := c.(bannerY := c.bannerY + BannerSpeed as real * dt);
      if moved.bannerY >= InternalH as real then BannerDoneClock(moved.(bannerActive := false))
      else moved
  }

  /** The countdown runs out in this step. */
  predicate Expires(c: Clock, dt: real)
  {
    c.timerRunning && !c.gameOver && c.timeLeft - dt <= 0.0
  }

  /** The countdown: it only runs while the timer runs and the game is on; when it
      runs out it stops at zero. It changes nothing but the time and the running
      flag. */
  function CountDown(c: Clock, dt: real): (r: Clock)
    ensures !c.timerRunning || c.gameOver ==> r == c
    ensures Expires(c, dt) ==> r.timeLeft == 0.0 && !r.timerRunning
    ensures c.timerRunning && !c.gameOver && !Expires(c, dt) ==> r.timerRunning && r.timeLeft == c.timeLeft - dt
    ensures r.(timeLeft := c.timeLeft, timerRunning := c.timerRunning) == c
    ensures Coherent(c) ==> Coherent(r)
  {
    if !c.timerRunning || c.gameOver then c
    else if c.timeLeft - dt <= 0.0 then c.(timeLeft := 0.0, timerRunning := false)
    else c.(timeLeft := c.timeLeft - dt)
  }

  /** Frames of the full step, from the banner's start, until it has left the
      field: the banner needs 46 of them, and until then the countdown stays held. */
  function ScrollFrames(c: Clock, n: nat): Clock
  {
    if n == 0 then c else ScrollBanner(ScrollFrames(c, n - 1), MaxStep)
  }

  lemma {:induction false} BannerHoldsCountdown(c: Clock, n: nat)
    requires c.bannerActive && c.bannerY == -(BannerH as real) && !c.timerRunning
    requires n <= 45
    ensures var r := ScrollFrames(c, n);
      r.bannerActive && !r.timerRunning && r.bannerY == -(BannerH as real) + 7.0 * n as real
      && r.timeLeft == c.timeLeft && r.phase == c.phase && r.gameOver == c.gameOver
  {
    if n > 0 {
      BannerHoldsCountdown(c, n - 1);
    }
  }

  lemma BannerClearsAfter46(c: Clock)
    requires c.bannerActive && c.bannerY == -(BannerH as real) && !c.timerRunning
    requires Playing(c.phase) && !c.gameOver
    ensures var r := ScrollFrames(c, 46);
      !r.bannerActive && r.timerRunning && r.timeLeft == RoundLength && r.phase == c.phase
  {
    BannerHoldsCountdown(c, 45);
    var r45 := ScrollFrames(c, 45);
    assert r45.bannerY + BannerSpeed as real * MaxStep == 294.0;
  }

  // ---------------------------------------------------------------------------
  // The parts of a frame

  /** The banner scroll of a frame. */
  method AdvanceBanner(s: GameState, dt: real)
    modifies s`bannerY, s`bannerActive, s`timerRunning, s`timeLeft
    ensures ClockOf(s) == ScrollBanner(old(ClockOf(s)), dt)
  {
    if s.bannerActive {
      s.bannerY := s.bannerY + BannerSpeed as real * dt;
      if s.bannerY >= InternalH as real {
        s.bannerActive := false;
        OnBannerFinishedStartTimer(s);
      }
    }
  }

  /** The turret phase is over once either cap is reached. */
  predicate SafetyNetFires(s: GameState)
    reads s`phase, s`bannerActive, s`gameOver, s`courtyardSet, s`wallTiles, s`turrets,
          s`turretsPlacedThisWave
  {
    s.phase == TurretPlacement && !s.bannerActive && !s.gameOver && !TurretPhase.CapsOpen(s)
  }

  /** The safety net of a frame: in TURRET, with no banner and the game on, when the
      turrets placed this wave reach the per-wave cap or all turrets reach the
      total cap, the countdown stops and COMBAT begins. */
  method TurretSafetyNet(s: GameState, combatRng: Rng, geo: Geometry) returns (fired: bool)
    requires combatRng.Valid()
    modifies s`phase, s`timeLeft, s`bannerActive, s`bannerY, s`bannerText, s`timerRunning,
             s`boats, combatRng
    ensures combatRng.Valid()
    ensures fired == old(SafetyNetFires(s))
    ensures fired ==> ClockOf(s) == CombatEntry(old(ClockOf(s))) && |s.boats| == CombatPhase.FleetSize(s.wave)
    ensures fired ==> combatRng.seed == SeedAfter(old(combatRng.seed), 5 * CombatPhase.FleetSize(s.wave))
    ensures fired && CombatPhase.FleetSize(s.wave) > 0 ==>
      s.boats == CombatPhase.Fleet(s, geo, s.wave, old(combatRng.seed), CombatPhase.FleetSize(s.wave))
    ensures !fired ==>
      ClockOf(s) == old(ClockOf(s)) && s.boats == old(s.boats) && combatRng.seed == old(combatRng.seed)
  {
    fired := false;
    if s.phase == TurretPlacement && !s.bannerActive && !s.gameOver {
      var maxThisWave := TurretPhase.MaxTurretsThisWave(s);
      var maxTotal := TurretPhase.MaxTotalTurretsForCourtyard(s);
      var placed := s.turretsPlacedThisWave;
      var total := |s.turrets|;
      if placed >= maxThisWave || total >= maxTotal {
        s.timerRunning := false;
        BeginCombatPhase(s, combatRng, geo);
        fired := true;
      }
    }
  }

  /** Combat runs in this frame. */
  predicate CombatRuns(c: Clock)
  {
    c.phase == Combat && !c.bannerActive && !c.gameOver
  }

  /** The combat part of a frame: one step of the simulation; the last wall falling
      ends the game (the simulation's all-walls-destroyed hook), and a cleared
      wave stops the countdown and starts the next wave. */
  method CombatStep(s: GameState, dt: real, pieceRng: Rng, combatRng: Rng, geo: Geometry)
    returns (ran: bool, res: CombatPhase.CombatResult)
    requires pieceRng.Valid() && combatRng.Valid() && pieceRng != combatRng
    modifies s`phase, s`wave, s`gameOver, s`timerRunning, s`timeLeft, s`bannerActive,
             s`bannerY, s`bannerText, s`turretsPlacedThisWave
    modifies s`wallTiles, s`projectiles, s`boats, s`turrets, s`courtyardRegions, s`courtyardSet,
             s`piece, pieceRng, combatRng
    ensures pieceRng.Valid() && combatRng.Valid()
    ensures ran == CombatRuns(old(ClockOf(s)))
    ensures !ran ==>
      && ClockOf(s) == old(ClockOf(s)) && s.wallTiles == old(s.wallTiles)
      && s.projectiles == old(s.projectiles) && s.boats == old(s.boats)
      && s.courtyardRegions == old(s.courtyardRegions) && s.courtyardSet == old(s.courtyardSet)
    ensures ran ==> (res.wallsGone <==> old(s.wallTiles) != {} && s.wallTiles == {})
    ensures ran && res.wallsGone ==> ClockOf(s) == GameOverClock(old(ClockOf(s)))
    ensures ran && res.allDestroyed ==>
      && ClockOf(s) == NextWaveClock(old(ClockOf(s)))
      && s.turrets == WavePrep.Aged(old(s.turrets)) && s.boats == []
    ensures ran && !res.wallsGone && !res.allDestroyed ==> ClockOf(s) == old(ClockOf(s)) && s.boats != []
    ensures !ran ==>
      && s.turrets == old(s.turrets) && s.piece == old(s.piece)
      && pieceRng.seed == old(pieceRng.seed) && combatRng.seed == old(combatRng.seed)
    ensures ran ==> combatRng.seed == if old(s.wallTiles) == {} then old(combatRng.seed)
                                     else SeedAfter(old(combatRng.seed), |CombatPhase.Shooters(s, geo, dt, old(s.boats))|)
    ensures ran && res.allDestroyed ==>
      && pieceRng.seed == NextSeed(old(pieceRng.seed))
      && s.piece == Pieces.Piece(Pieces.Types[Draw(pieceRng.seed, 0, |Pieces.Types| - 1)], 0)
    ensures ran && !res.allDestroyed ==>
      s.turrets == old(s.turrets) && s.piece == old(s.piece) && pieceRng.seed == old(pieceRng.seed)
    ensures ran ==>
      exists ps: seq<Projectile> ::
      && (if res.allDestroyed then s.projectiles == [] else ps == s.projectiles)
      && CombatPhase.CombatFrame(s, geo, dt, old(s.wave), old(CombatPhase.ArenaOf(s)),
                                 CombatPhase.Arena(s.wallTiles, s.boats, ps), res.wallsGone)
    ensures s.wallTiles <= old(s.wallTiles)
    ensures old(s.CourtyardsCurrent()) ==> s.CourtyardsCurrent()
  {
    ran := s.phase == Combat && !s.bannerActive && !s.gameOver;
    res := CombatPhase.CombatResult(false, false);
    if !ran {
      return;
    }
    res := Fight(s, dt, pieceRng, combatRng, geo);
  }

  /** A frame of combat that runs: the simulation step followed by its hooks. */
  method Fight(s: GameState, dt: real, pieceRng: Rng, combatRng: Rng, geo: Geometry)
    returns (res: CombatPhase.CombatResult)
    requires pieceRng.Valid() && combatRng.Valid() && pieceRng != combatRng
    modifies s`phase, s`wave, s`gameOver, s`timerRunning, s`timeLeft, s`bannerActive,
             s`bannerY, s`bannerText, s`turretsPlacedThisWave
    modifies s`wallTiles, s`projectiles, s`boats, s`turrets, s`courtyardRegions, s`courtyardSet,
             s`piece, pieceRng, combatRng
    ensures pieceRng.Valid() && combatRng.Valid()
    ensures res.wallsGone <==> old(s.wallTiles) != {} && s.wallTiles == {}
    ensures res.wallsGone ==> ClockOf(s) == GameOverClock(old(ClockOf(s)))
    ensures res.allDestroyed ==>
      && ClockOf(s) == NextWaveClock(old(ClockOf(s)))
      && s.turrets == WavePrep.Aged(old(s.turrets)) && s.boats == []
    ensures !res.wallsGone && !res.allDestroyed ==> ClockOf(s) == old(ClockOf(s)) && s.boats != []
    ensures combatRng.seed == if old(s.wallTiles) == {} then old(combatRng.seed)
                              else SeedAfter(old(combatRng.seed), |CombatPhase.Shooters(s, geo, dt, old(s.boats))|)
    ensures res.allDestroyed ==>
      && pieceRng.seed == NextSeed(old(pieceRng.seed))
      && s.piece == Pieces.Piece(Pieces.Types[Draw(pieceRng.seed, 0, |Pieces.Types| - 1)], 0)
    ensures !res.allDestroyed ==>
      s.turrets == old(s.turrets) && s.piece == old(s.piece) && pieceRng.seed == old(pieceRng.seed)
    ensures exists ps: seq<Projectile> ::
      && (if res.allDestroyed then s.projectiles == [] else ps == s.projectiles)
      && CombatPhase.CombatFrame(s, geo, dt, old(s.wave), old(CombatPhase.ArenaOf(s)),
                                 CombatPhase.Arena(s.wallTiles, s.boats, ps), res.wallsGone)
    ensures s.wallTiles <= old(s.wallTiles)
    ensures old(s.CourtyardsCurrent()) ==> s.CourtyardsCurrent()
  {
    ghost var before := CombatPhase.ArenaOf(s);
    ghost var wave := s.wave;
    ghost var clock := ClockOf(s);
    res := CombatPhase.UpdateCombat(s, combatRng, geo, dt);
    assert ClockOf(s) == clock;
    ghost var mid := CombatPhase.ArenaOf(s);
    CombatHooks(s, res, pieceRng);
    assert mid == CombatPhase.Arena(s.wallTiles, s.boats, mid.projectiles);
  }

  /** The hooks after a combat update: the last wall falling ends the game, and a
      cleared wave stops the countdown and starts the next wave; otherwise nothing
      changes. The walls are not touched. */
  method CombatHooks(s: GameState, res: CombatPhase.CombatResult, pieceRng: Rng)
    requires pieceRng.Valid() && !(res.wallsGone && res.allDestroyed)
    modifies s`phase, s`wave, s`gameOver, s`timerRunning, s`timeLeft, s`bannerActive,
             s`bannerY, s`bannerText, s`turretsPlacedThisWave
    modifies s`projectiles, s`boats, s`turrets, s`courtyardRegions, s`courtyardSet, s`piece, pieceRng
    ensures pieceRng.Valid()
    ensures res.wallsGone ==> ClockOf(s) == GameOverClock(old(ClockOf(s)))
    ensures res.allDestroyed ==>
      && ClockOf(s) == NextWaveClock(old(ClockOf(s)))
      && s.turrets == WavePrep.Aged(old(s.turrets)) && s.boats == [] && s.projectiles == []
    ensures res.allDestroyed ==>
      && pieceRng.seed == NextSeed(old(pieceRng.seed))
      && s.piece == Pieces.Piece(Pieces.Types[Draw(pieceRng.seed, 0, |Pieces.Types| - 1)], 0)
    ensures !res.wallsGone && !res.allDestroyed ==> ClockOf(s) == old(ClockOf(s))
    ensures !res.allDestroyed ==>
      && s.projectiles == old(s.projectiles) && s.boats == old(s.boats)
      && s.courtyardRegions == old(s.courtyardRegions) && s.courtyardSet == old(s.courtyardSet)
      && s.turrets == old(s.turrets) && s.piece == old(s.piece) && pieceRng.seed == old(pieceRng.seed)
    ensures old(s.CourtyardsCurrent()) ==> s.CourtyardsCurrent()
  {
    if res.wallsGone {
      Flow.GameOver(s);
    }
    if res.allDestroyed {
      s.timerRunning := false;
      EndCombatAndStartNextWave(s, pieceRng);
    }
  }

  /** The countdown of a frame: while running and the game is on it loses dt, and
      when it runs out it is set to zero, stopped, and the phase's expiry fires. */
  method RunTimer(s: GameState, dt: real, pieceRng: Rng, combatRng: Rng, geo: Geometry)
    requires pieceRng.Valid() && combatRng.Valid() && pieceRng != combatRng
    modifies s`phase, s`wave, s`gameOver, s`timerRunning, s`timeLeft, s`bannerActive,
             s`bannerY, s`bannerText, s`turretsPlacedThisWave
    modifies s`projectiles, s`boats, s`turrets, s`courtyardRegions, s`courtyardSet, s`piece,
             pieceRng, combatRng
    ensures pieceRng.Valid() && combatRng.Valid()
    ensures !Expires(old(ClockOf(s)), dt) ==>
      && ClockOf(s) == CountDown(old(ClockOf(s)), dt)
      && s.boats == old(s.boats) && s.projectiles == old(s.projectiles)
      && s.courtyardRegions == old(s.courtyardRegions) && s.courtyardSet == old(s.courtyardSet)
      && s.turrets == old(s.turrets) && s.piece == old(s.piece)
      && pieceRng.seed == old(pieceRng.seed) && combatRng.seed == old(combatRng.seed)
    ensures Expires(old(ClockOf(s)), dt) ==>
      ClockOf(s) == ExpiredClock(CountDown(old(ClockOf(s)), dt), |old(s.courtyardRegions)| > 0)
    ensures Expires(old(ClockOf(s)), dt) && old(s.phase) == TurretPlacement ==>
      && |s.boats| == CombatPhase.FleetSize(s.wave)
      && combatRng.seed == SeedAfter(old(combatRng.seed), 5 * CombatPhase.FleetSize(s.wave))
      && (CombatPhase.FleetSize(s.wave) > 0 ==>
            s.boats == CombatPhase.Fleet(s, geo, s.wave, old(combatRng.seed), CombatPhase.FleetSize(s.wave)))
    ensures Expires(old(ClockOf(s)), dt) && old(s.phase) == Combat ==>
      && s.projectiles == [] && s.boats == [] && s.turrets == WavePrep.Aged(old(s.turrets))
      && pieceRng.seed == NextSeed(old(pieceRng.seed))
      && s.piece == Pieces.Piece(Pieces.Types[Draw(pieceRng.seed, 0, |Pieces.Types| - 1)], 0)
    ensures Expires(old(ClockOf(s)), dt) && old(s.phase) != TurretPlacement ==> combatRng.seed == old(combatRng.seed)
    ensures Expires(old(ClockOf(s)), dt) && old(s.phase) != Combat ==>
      && s.turrets == old(s.turrets) && s.courtyardRegions == old(s.courtyardRegions)
      && s.courtyardSet == old(s.courtyardSet)
      && s.piece == old(s.piece) && pieceRng.seed == old(pieceRng.seed)
    ensures Expires(old(ClockOf(s)), dt) && old(s.phase) != TurretPlacement && old(s.phase) != Combat ==>
      s.boats == old(s.boats)
    ensures old(s.phase) != Combat ==> s.projectiles == old(s.projectiles)
    ensures old(s.CourtyardsCurrent()) ==> s.CourtyardsCurrent()
  {
    if s.timerRunning && !s.gameOver {
      s.timeLeft := s.timeLeft - dt;
      if s.timeLeft <= 0.0 {
        s.timeLeft := 0.0;
        s.timerRunning := false;
        OnPhaseTimerExpired(s, pieceRng, combatRng, geo);
      }
    }
  }

  /** The first half of a frame: the banner, then the safety net. The walls, the
      projectiles and the wave are left alone. A banner that stays on the field
      holds the rest of the half; the safety net, when it fires, leaves COMBAT held
      by its new banner; a frame that may fight passes through unchanged. */
  method BannerAndNet(s: GameState, dt: real, combatRng: Rng, geo: Geometry)
    requires combatRng.Valid()
    modifies s`phase, s`timeLeft, s`bannerActive, s`bannerY, s`bannerText, s`timerRunning,
             s`boats, combatRng
    ensures combatRng.Valid()
    ensures old(Coherent(ClockOf(s))) ==> Coherent(ClockOf(s))
    ensures s.wave == old(s.wave)
    ensures old(s.bannerActive) && old(s.bannerY) + BannerSpeed as real * dt < InternalH as real ==>
      && ClockOf(s) == old(ClockOf(s)).(bannerY := old(s.bannerY) + BannerSpeed as real * dt)
      && s.boats == old(s.boats)
    ensures old(SafetyNetFires(s)) ==>
      && s.phase == Combat && s.bannerActive && !s.timerRunning && |s.boats| == CombatPhase.FleetSize(s.wave)
    ensures old(s.phase) != Combat && s.phase == Combat ==> s.bannerActive && !s.timerRunning
    ensures CombatRuns(old(ClockOf(s))) ==> ClockOf(s) == old(ClockOf(s)) && s.boats == old(s.boats)
    ensures old(s.phase) != TurretPlacement ==> combatRng.seed == old(combatRng.seed)
    ensures old(s.phase) != TurretPlacement ==> s.boats == old(s.boats)
  {
    AdvanceBanner(s, dt);
    var fired := TurretSafetyNet(s, combatRng, geo);
  }

  /** The second half of a frame: combat, then the countdown. A banner holds the
      whole half; walls and projectiles only move when the half begins in COMBAT;
      at most one wave passes; the last wall falling ends the game; a fight that
      stays in COMBAT leaves boats afloat. */
  method FightAndCount(s: GameState, dt: real, pieceRng: Rng, combatRng: Rng, geo: Geometry)
    requires pieceRng.Valid() && combatRng.Valid() && pieceRng != combatRng
    modifies s`phase, s`wave, s`gameOver, s`timerRunning, s`timeLeft, s`bannerActive,
             s`bannerY, s`bannerText, s`turretsPlacedThisWave
    modifies s`wallTiles, s`projectiles, s`boats, s`turrets, s`courtyardRegions, s`courtyardSet,
             s`piece, pieceRng, combatRng
    ensures pieceRng.Valid() && combatRng.Valid()
    ensures old(Coherent(ClockOf(s))) ==> Coherent(ClockOf(s))
    ensures old(s.CourtyardsCurrent()) ==> s.CourtyardsCurrent()
    ensures s.wallTiles <= old(s.wallTiles)
    ensures old(s.phase) != Combat ==> s.wallTiles == old(s.wallTiles) && s.projectiles == old(s.projectiles)
    ensures old(s.bannerActive) && !old(s.timerRunning) ==>
      && ClockOf(s) == old(ClockOf(s)) && s.wallTiles == old(s.wallTiles)
      && s.boats == old(s.boats) && s.projectiles == old(s.projectiles)
    ensures old(s.wave) <= s.wave <= old(s.wave) + 1
    ensures CombatRuns(old(ClockOf(s))) && old(s.wallTiles) != {} && s.wallTiles == {} ==>
      s.phase == Phase.GameOver && s.gameOver
    ensures CombatRuns(old(ClockOf(s))) && s.phase == Combat ==> s.boats != []
  {
    var ran, res := CombatStep(s, dt, pieceRng, combatRng, geo);
    RunTimer(s, dt, pieceRng, combatRng, geo);
  }

  // ---------------------------------------------------------------------------
  // A frame

  /** The body of `loop(t)`: the step, then the banner, the turret safety net,
      combat and the countdown, in that order (the hand-off to the renderer is
      not modelled). The phase machine's invariant and the courtyards' agreement
      with the walls are kept; walls only fall, and only in a frame that began in
      COMBAT, the only frame that moves projectiles; a running banner holds every
      other part of the frame; a frame moves at most one wave on; a frame that
      reaches the turret caps enters COMBAT without fighting; a frame whose combat
      breaks the last wall ends the game; a COMBAT frame that stays in COMBAT
      leaves boats afloat. */
  method Tick(s: GameState, frame: FrameClock, t: real, pieceRng: Rng, combatRng: Rng, geo: Geometry)
    returns (dt: real)
    requires pieceRng.Valid() && combatRng.Valid() && pieceRng != combatRng
    modifies s`phase, s`wave, s`gameOver, s`timerRunning, s`timeLeft, s`bannerActive,
             s`bannerY, s`bannerText, s`turretsPlacedThisWave
    modifies s`wallTiles, s`projectiles, s`boats, s`turrets, s`courtyardRegions, s`courtyardSet,
             s`piece, pieceRng, combatRng, frame
    ensures pieceRng.Valid() && combatRng.Valid()
    ensures dt == StepSize(t, old(frame.lastT)) && dt <= MaxStep && frame.lastT == t
    ensures old(Coherent(ClockOf(s))) ==> Coherent(ClockOf(s))
    ensures old(s.CourtyardsCurrent()) ==> s.CourtyardsCurrent()
    ensures s.wallTiles <= old(s.wallTiles)
    ensures old(s.phase) != Combat ==> s.wallTiles == old(s.wallTiles) && s.projectiles == old(s.projectiles)
    ensures old(s.wave) <= s.wave <= old(s.wave) + 1
    ensures (old(Coherent(ClockOf(s))) && old(s.bannerActive)
             && old(s.bannerY) + BannerSpeed as real * dt < InternalH as real) ==>
      && ClockOf(s) == old(ClockOf(s)).(bannerY := old(s.bannerY) + BannerSpeed as real * dt)
      && s.wallTiles == old(s.wallTiles) && s.boats == old(s.boats) && s.projectiles == old(s.projectiles)
    ensures old(Coherent(ClockOf(s))) && old(SafetyNetFires(s)) ==>
      && s.phase == Combat && s.bannerActive && !s.timerRunning && |s.boats| == CombatPhase.FleetSize(s.wave)
      && s.wallTiles == old(s.wallTiles) && s.projectiles == old(s.projectiles)
    ensures CombatRuns(old(ClockOf(s))) && old(s.wallTiles) != {} && s.wallTiles == {} ==>
      s.phase == Phase.GameOver && s.gameOver
    ensures CombatRuns(old(ClockOf(s))) && s.phase == Combat ==> s.boats != []
  {
    var elapsed := (t - frame.lastT) / 1000.0;
    dt := if elapsed < MaxStep then elapsed else MaxStep;
    frame.lastT := t;
    ghost var current := s.CourtyardsCurrent();
    BannerAndNet(s, dt, combatRng, geo);
    assert s.CourtyardsCurrent() == current;
    FightAndCount(s, dt, pieceRng, combatRng, geo);
  }
}
