/**
  The economy of BTD2.java's GameScreen: money, lives, rounds, enemy
  spawning, tower placement and purchase, and the upgrade panel. What the
  frame timer decides with floating point (enemy and projectile motion,
  targeting, hits, "well positioned", "near the path") arrives as inputs:
  how many enemies escaped this frame, which kills earned the bonus,
  whether a click is near the path. Enemies are counted, not tracked.
 */
module TowerDefense {
  import opened Wrappers

  const WindowWidth: int := 1280
  const WindowHeight: int := 720
  const ShopAreaHeight: int := 100
  const ShopButtonWidth: int := 200
  const MinTowerDistance: int := 50
  const SpawnDelayFrames: int := 10
  const MaxUpgradeLevel: int := 5

  datatype TowerType = Basic | Sniper | Rapid | Shotgun

  /** The shop prices. */
  function Cost(kind: TowerType): (c: int)
    ensures 120 <= c <= 200
  {
    match kind
    case Basic => 120
    case Sniper => 180
    case Rapid => 150
    case Shotgun => 200
  }

  datatype Tower = Tower(kind: TowerType, x: int, y: int, range: int, damage: int, fireRate: int,
                         damageLevel: int, rangeLevel: int, fireRateLevel: int)

  /** The Tower constructor and the three subclasses' overrides (size 40, level 1 are constants). */
  function NewTower(kind: TowerType, x: int, y: int): (t: Tower)
    ensures t.kind == kind && t.x == x && t.y == y
    ensures t.damageLevel == 0 && t.rangeLevel == 0 && t.fireRateLevel == 0
    ensures kind == Basic <==> t.fireRate == 60
    ensures kind != Basic ==> t.fireRate == 0
    ensures kind == Basic ==> t.range == 100 && t.damage == 20
    ensures kind == Sniper ==> t.range == 150 && t.damage == 3
    ensures kind == Rapid ==> t.range == 90 && t.damage == 1
    ensures kind == Shotgun ==> t.range == 80 && t.damage == 1
  {
    match kind
    case Basic => Tower(kind, x, y, 100, 20, 60, 0, 0, 0)
    case Sniper => Tower(kind, x, y, 150, 3, 0, 0, 0, 0)
    case Rapid => Tower(kind, x, y, 90, 1, 0, 0, 0, 0)
    case Shotgun => Tower(kind, x, y, 80, 1, 0, 0, 0, 0)
  }

  /** Tower.contains: within the tower's drawn circle of diameter 40. */
  predicate Contains(t: Tower, mx: int, my: int) {
    var dx, dy := mx - t.x, my - t.y;
    dx * dx + dy * dy <= (40 / 2) * (40 / 2)
  }

  datatype Button = LeftButton | RightButton | OtherButton

  datatype Game = Game(
    money: int, lives: int, round: int,
    towers: seq<Tower>, enemies: nat,
    toSpawn: int, spawnCounter: int, speed: int,
    paused: bool, gameOver: bool,
    selectedType: TowerType,
    upgrading: Option<nat>)

  /** startNewRound: four enemies per round number, after a full spawn delay. */
  function StartNewRound(g: Game): (r: Game)
    ensures r.toSpawn == 4 * g.round && r.spawnCounter == SpawnDelayFrames
    ensures r == g.(toSpawn := r.toSpawn, spawnCounter := r.spawnCounter)
  {
    g.(toSpawn := g.round * 4, spawnCounter := SpawnDelayFrames)
  }

  /** The GameScreen constructor: the field initialisers, then startNewRound. */
  function NewGame(): Game {
    StartNewRound(Game(100000, 15, 1, [], 0, 0, SpawnDelayFrames, 1, false, false, Basic, None))
  }

  // ---- the frame timer (actionPerformed) ------------------------------------------

  /** spawnOneEnemy's health: 50 + 15 per round, tripled for a boss (draw 0-1), halved for a fast one (2-3). */
  function SpawnHealth(round: int, typeDraw: int): (h: int)
    requires 0 <= typeDraw < 10
    ensures typeDraw < 2 ==> h == 3 * (50 + round * 15)
    ensures 2 <= typeDraw < 4 && round >= 0 ==> 2 * h <= 50 + round * 15 < 2 * h + 2
    ensures 4 <= typeDraw ==> h == 50 + round * 15
  {
    var health := 50 + round * 15;
    if typeDraw < 2 then health * 3
    else if typeDraw < 4 then (if health >= 0 then health / 2 else -((-health) / 2))
    else health
  }

  /** The spawning step: count down by the speed; at zero one enemy appears and the delay restarts. */
  function SpawnStep(g: Game): (r: Game)
    ensures r.enemies + r.toSpawn == g.enemies + g.toSpawn
    ensures g.toSpawn > 0 && g.spawnCounter - g.speed <= 0 ==> r.enemies == g.enemies + 1 && r.spawnCounter == SpawnDelayFrames
    ensures g.toSpawn > 0 && g.spawnCounter - g.speed > 0 ==> r.enemies == g.enemies && r.spawnCounter == g.spawnCounter - g.speed
    ensures g.toSpawn <= 0 ==> r == g
  {
    if g.toSpawn > 0 then
      var counter := g.spawnCounter - g.speed;
      if counter <= 0 then g.(enemies := g.enemies + 1, toSpawn := g.toSpawn - 1, spawnCounter := SpawnDelayFrames)
      else g.(spawnCounter := counter)
    else g
  }

  /** The escape loop: each escaped enemy costs a life; lives at or below zero end the game. */
  function Escapes(g: Game, escaped: nat): (r: Game)
    requires escaped <= g.enemies
    ensures r.enemies == g.enemies - escaped
    decreases escaped
  {
    if escaped == 0 then g
    else
      var lives := g.lives - 1;
      Escapes(g.(lives := lives, enemies := g.enemies - 1, gameOver := g.gameOver || lives <= 0), escaped - 1)
  }

  /** The kill reward: 75, 10 per round, and 20 more for a well-positioned tower's projectile. */
  function Reward(round: int, bonus: bool): int {
    75 + round * 10 + (if bonus then 20 else 0)
  }

  /** The collision loop's kills: one entry per killed enemy, saying whether the bonus applies. */
  function Kills(g: Game, kills: seq<bool>): (r: Game)
    requires |kills| <= g.enemies
    decreases |kills|
  {
    if |kills| == 0 then g
    else Kills(g.(money := g.money + Reward(g.round, kills[0]), enemies := g.enemies - 1), kills[1..])
  }

  /** The end of the frame: a cleared round (nothing alive, nothing to spawn) starts the next one. */
  function NextRound(g: Game): (r: Game) {
    if g.enemies == 0 && g.toSpawn == 0 then StartNewRound(g.(round := g.round + 1)) else g
  }

  /** What the frame's floating-point parts decided: escapes and kills, in that order. */
  datatype FrameInput = FrameInput(escaped: nat, kills: seq<bool>)

  /** Enough enemies are alive after spawning for the escapes and then the kills. */
  predicate FrameFits(g: Game, input: FrameInput) {
    input.escaped + |input.kills| <= SpawnStep(g).enemies
  }

  /** actionPerformed: nothing while over or paused; else spawn, escapes, kills and the round check. */
  function Frame(g: Game, input: FrameInput): Game
    requires FrameFits(g, input)
  {
    if g.gameOver || g.paused then g
    else
      var g1 := SpawnStep(g);
      var g2 := Escapes(g1, input.escaped);
      var g3 := Kills(g2, input.kills);
      NextRound(g3)
  }

  function SumRewards(round: int, kills: seq<bool>): int
    decreases |kills|
  {
    if |kills| == 0 then 0 else Reward(round, kills[0]) + SumRewards(round, kills[1..])
  }

  lemma {:induction false} EscapesCount(g: Game, escaped: nat)
    requires escaped <= g.enemies
    ensures var r := Escapes(g, escaped);
      r.lives == g.lives - escaped && r.enemies == g.enemies - escaped && r.money == g.money &&
      r.round == g.round && r.toSpawn == g.toSpawn && r.spawnCounter == g.spawnCounter && r.speed == g.speed &&
      (r.gameOver <==> g.gameOver || (escaped > 0 && g.lives - escaped <= 0))
    decreases escaped
  {
    if escaped > 0 {
      var lives := g.lives - 1;
      EscapesCount(g.(lives := lives, enemies := g.enemies - 1, gameOver := g.gameOver || lives <= 0), escaped - 1);
    }
  }

  lemma {:induction false} KillsCount(g: Game, kills: seq<bool>)
    requires |kills| <= g.enemies
    ensures var r := Kills(g, kills);
      r.money == g.money + SumRewards(g.round, kills) && r.enemies == g.enemies - |kills| &&
      r.lives == g.lives && r.gameOver == g.gameOver && r.round == g.round && r.toSpawn == g.toSpawn &&
      r.spawnCounter == g.spawnCounter && r.speed == g.speed
    decreases |kills|
  {
    if |kills| > 0 {
      KillsCount(g.(money := g.money + Reward(g.round, kills[0]), enemies := g.enemies - 1), kills[1..]);
    }
  }

  /** Each kill pays at least 75 + 10 per round and at most 20 more. */
  lemma {:induction false} SumRewardsBounds(round: int, kills: seq<bool>)
    ensures |kills| * (75 + round * 10) <= SumRewards(round, kills) <= |kills| * (95 + round * 10)
    decreases |kills|
  {
    if |kills| > 0 {
      SumRewardsBounds(round, kills[1..]);
    }
  }

  /**
    One frame's bookkeeping: lives drop by the escapes and the game is over
    once they reach zero, every kill pays its reward, and the round moves
    on exactly when no enemy is alive and none is left to spawn.
   */
  lemma FrameBookkeeping(g: Game, input: FrameInput)
    requires FrameFits(g, input) && !g.gameOver && !g.paused
    ensures var r, s := Frame(g, input), SpawnStep(g);
      r.lives == g.lives - input.escaped &&
      r.money == g.money + SumRewards(g.round, input.kills) &&
      (r.gameOver <==> input.escaped > 0 && g.lives - input.escaped <= 0)
    ensures var r, s := Frame(g, input), SpawnStep(g);
      var alive := s.enemies - input.escaped - |input.kills|;
      (r.round == g.round + 1 <==> alive == 0 && s.toSpawn == 0) &&
      (r.round == g.round + 1 ==> r.toSpawn == 4 * r.round && r.spawnCounter == SpawnDelayFrames && r.enemies == 0) &&
      (r.round != g.round + 1 ==> r.round == g.round && r.enemies == alive && r.toSpawn == s.toSpawn &&
                                  r.spawnCounter == s.spawnCounter) &&
      r.speed == g.speed
  {
    var g1 := SpawnStep(g);
    EscapesCount(g1, input.escaped);
    KillsCount(Escapes(g1, input.escaped), input.kills);
  }

  /** While over or paused the timer changes nothing. */
  lemma FrameFrozen(g: Game, input: FrameInput)
    requires FrameFits(g, input) && (g.gameOver || g.paused)
    ensures Frame(g, input) == g
  {
  }

  /**
    The spawn bookkeeping invariant: nothing negative is left to spawn, the
    counter stays within one delay, and the speed is 1 or 2.
   */
  predicate SpawnOk(g: Game) {
    g.toSpawn >= 0 && 0 < g.spawnCounter <= SpawnDelayFrames && (g.speed == 1 || g.speed == 2) && g.round >= 1
  }

  lemma FrameKeepsSpawnOk(g: Game, input: FrameInput)
    requires FrameFits(g, input) && SpawnOk(g)
    ensures SpawnOk(Frame(g, input))
  {
    if !g.gameOver && !g.paused {
      FrameBookkeeping(g, input);
    }
  }

  // ---- placing towers ---------------------------------------------------------------

  /** No tower of the list is closer than MinTowerDistance to (x, y). */
  predicate FarFromAll(towers: seq<Tower>, x: int, y: int) {
    forall i :: 0 <= i < |towers| ==> TooCloseSq(towers[i], x, y) >= MinTowerDistance * MinTowerDistance
  }

  function TooCloseSq(t: Tower, x: int, y: int): int {
    (t.x - x) * (t.x - x) + (t.y - y) * (t.y - y)
  }

  /** canPlaceTower's loop from tower k on: false at the first tower too close. */
  function CanPlaceFrom(towers: seq<Tower>, x: int, y: int, k: nat): bool
    requires k <= |towers|
    decreases |towers| - k
  {
    if k == |towers| then true
    else if TooCloseSq(towers[k], x, y) < MinTowerDistance * MinTowerDistance then false
    else CanPlaceFrom(towers, x, y, k + 1)
  }

  function CanPlaceTower(towers: seq<Tower>, x: int, y: int): bool {
    CanPlaceFrom(towers, x, y, 0)
  }

  lemma {:induction false} CanPlaceFromMeans(towers: seq<Tower>, x: int, y: int, k: nat)
    requires k <= |towers|
    ensures CanPlaceFrom(towers, x, y, k) <==>
      forall i :: k <= i < |towers| ==> TooCloseSq(towers[i], x, y) >= MinTowerDistance * MinTowerDistance
    decreases |towers| - k
  {
    if k < |towers| {
      CanPlaceFromMeans(towers, x, y, k + 1);
    }
  }

  /** canPlaceTower holds exactly when every tower is at least 50 away. */
  lemma CanPlaceTowerMeans(towers: seq<Tower>, x: int, y: int)
    ensures CanPlaceTower(towers, x, y) <==> FarFromAll(towers, x, y)
  {
    CanPlaceFromMeans(towers, x, y, 0);
  }

  // ---- mouse and keys -----------------------------------------------------------------

  /** The restart button: the rectangle at (540, 410), 200 wide, 50 high, as Rectangle.contains reads it. */
  predicate OnRestartButton(mx: int, my: int) {
    var x, y := WindowWidth / 2 - 100, WindowHeight / 2 + 50;
    x <= mx < x + 200 && y <= my < y + 50
  }

  /** The shop button under mx, if any (each is 200 wide, both edges included). */
  function ShopButton(mx: int): Option<TowerType> {
    if 50 <= mx <= 50 + ShopButtonWidth then Some(Basic)
    else if 300 <= mx <= 300 + ShopButtonWidth then Some(Sniper)
    else if 550 <= mx <= 550 + ShopButtonWidth then Some(Rapid)
    else if 800 <= mx <= 800 + ShopButtonWidth then Some(Shotgun)
    else None
  }

  /** The first tower, in placement order, whose circle holds the click. */
  function TowerAt(towers: seq<Tower>, mx: int, my: int, k: nat): (r: Option<nat>)
    requires k <= |towers|
    ensures r.Some? ==> k <= r.value < |towers| && Contains(towers[r.value], mx, my) &&
                        forall i :: k <= i < r.value ==> !Contains(towers[i], mx, my)
    ensures r.None? ==> forall i :: k <= i < |towers| ==> !Contains(towers[i], mx, my)
    decreases |towers| - k
  {
    if k == |towers| then None
    else if Contains(towers[k], mx, my) then Some(k)
    else TowerAt(towers, mx, my, k + 1)
  }

  /** restartGame: money 400, 15 lives, round 1, everything cleared, speed from the toggle. */
  function Restart(g: Game, speedToggle: bool): (r: Game)
    ensures r.money == 400 && r.lives == 15 && r.round == 1
    ensures r.towers == [] && r.enemies == 0 && r.upgrading.None? && !r.gameOver
    ensures r.toSpawn == 4 && r.spawnCounter == SpawnDelayFrames
  {
    StartNewRound(g.(money := 400, lives := 15, round := 1, towers := [], enemies := 0, upgrading := None,
                     gameOver := false, speed := if speedToggle then 2 else 1))
  }

  /** mouseClicked. `nearPath` is Track.isNearPath at the click. */
  function Click(g: Game, mx: int, my: int, button: Button, nearPath: bool, speedToggle: bool): Game {
    if g.gameOver then (if OnRestartButton(mx, my) then Restart(g, speedToggle) else g)
    else if my >= WindowHeight - ShopAreaHeight then
      var b := ShopButton(mx);
      if b.Some? then g.(selectedType := b.value) else g
    else if button == LeftButton then
      var hit := TowerAt(g.towers, mx, my, 0);
      if hit.Some? then g.(upgrading := hit) else g
    else if button == RightButton then
      if !nearPath && CanPlaceTower(g.towers, mx, my) && g.money >= Cost(g.selectedType) then
        g.(money := g.money - Cost(g.selectedType), towers := g.towers + [NewTower(g.selectedType, mx, my)])
      else g
    else g
  }

  /**
    A right click on the field buys one tower of the selected type exactly
    when the spot is off the path, 50 away from every tower, and affordable;
    otherwise nothing changes.
   */
  lemma RightClickBuys(g: Game, mx: int, my: int, nearPath: bool, speedToggle: bool)
    requires !g.gameOver && my < WindowHeight - ShopAreaHeight
    ensures var r := Click(g, mx, my, RightButton, nearPath, speedToggle);
      var ok := !nearPath && FarFromAll(g.towers, mx, my) && g.money >= Cost(g.selectedType);
      (ok ==> r.money == g.money - Cost(g.selectedType) && r.towers == g.towers + [NewTower(g.selectedType, mx, my)] &&
              r == g.(money := r.money, towers := r.towers)) &&
      (!ok ==> r == g)
  {
    CanPlaceTowerMeans(g.towers, mx, my);
  }

  /** The upgrade panel, when open, belongs to a tower that exists. */
  predicate PanelOk(g: Game) {
    g.upgrading.Some? ==> g.upgrading.value < |g.towers|
  }

  /**
    A left click on the field opens the panel of the first tower under the
    cursor, or changes nothing; no click leaves the panel pointing at a
    tower that is not there.
   */
  lemma ClickKeepsPanel(g: Game, mx: int, my: int, button: Button, nearPath: bool, speedToggle: bool)
    requires PanelOk(g)
    ensures PanelOk(Click(g, mx, my, button, nearPath, speedToggle))
    ensures !g.gameOver && my < WindowHeight - ShopAreaHeight && button == LeftButton ==>
      var r := Click(g, mx, my, button, nearPath, speedToggle);
      (r.upgrading.Some? && r.upgrading != g.upgrading ==> Contains(g.towers[r.upgrading.value], mx, my)) &&
      ((exists i :: 0 <= i < |g.towers| && Contains(g.towers[i], mx, my)) ==> r.upgrading.Some?) &&
      r.towers == g.towers && r.money == g.money
  {
  }

  /** The game starts with 100000 money, 15 lives, round 1 and four enemies to spawn. */
  lemma NewGameOk()
    ensures var g := NewGame();
      SpawnOk(g) && PanelOk(g) && g.money == 100000 && g.lives == 15 && g.round == 1 && g.toSpawn == 4 && !g.gameOver
  {
  }

  /**
    Clicking the restart button after the game is over starts a consistent
    game, whatever state the lost game was left in, keeping only the paused
    flag and the selected shop tower.
   */
  lemma RestartOk(g: Game, mx: int, my: int, button: Button, nearPath: bool, speedToggle: bool)
    requires g.gameOver && OnRestartButton(mx, my)
    ensures var r := Click(g, mx, my, button, nearPath, speedToggle);
      SpawnOk(r) && PanelOk(r) && r.money == 400 && !r.gameOver &&
      r.paused == g.paused && r.selectedType == g.selectedType && (r.speed == 2 <==> speedToggle)
  {
  }

  /** P toggles the pause. */
  function KeyP(g: Game): (r: Game)
    ensures r.paused != g.paused && r == g.(paused := r.paused)
  {
    g.(paused := !g.paused)
  }

  /** The "2x Speed" toggle. */
  function SpeedToggle(g: Game, selected: bool): (r: Game)
    ensures SpawnOk(g) ==> SpawnOk(r)
    ensures r.speed == 2 <==> selected
  {
    g.(speed := if selected then 2 else 1)
  }

  // ---- the upgrade panel ---------------------------------------------------------------

  /** getUpgradeCost. */
  function UpgradeCost(level: int): int {
    50 + level * 25
  }

  datatype UpgradeButton = DamageButton | RangeButton | FireRateButton | CloseButton

  /** The upgrade panel's actionPerformed on the panel's tower. */
  function Upgrade(g: Game, button: UpgradeButton): (r: Game)
    requires g.upgrading.Some? && g.upgrading.value < |g.towers|
    ensures button != CloseButton ==> r.upgrading == g.upgrading && |r.towers| == |g.towers|
    ensures button == CloseButton ==> r == g.(upgrading := None)
  {
    var i := g.upgrading.value;
    var t := g.towers[i];
    match button
    case DamageButton =>
      if t.damageLevel < MaxUpgradeLevel && g.money >= UpgradeCost(t.damageLevel) then
        g.(money := g.money - UpgradeCost(t.damageLevel),
           towers := g.towers[i := t.(damage := t.damage + 10, damageLevel := t.damageLevel + 1)])
      else g
    case RangeButton =>
      if t.rangeLevel < MaxUpgradeLevel && g.money >= UpgradeCost(t.rangeLevel) then
        g.(money := g.money - UpgradeCost(t.rangeLevel),
           towers := g.towers[i := t.(range := t.range + 15, rangeLevel := t.rangeLevel + 1)])
      else g
    case FireRateButton =>
      if t.fireRateLevel < MaxUpgradeLevel && g.money >= UpgradeCost(t.fireRateLevel) then
        g.(money := g.money - UpgradeCost(t.fireRateLevel),
           towers := g.towers[i := t.(fireRate := if t.fireRate > 20 then t.fireRate - 5 else t.fireRate,
                                       fireRateLevel := t.fireRateLevel + 1)])
      else g
    case CloseButton => g.(upgrading := None)
  }

  /** Upgrade levels of every tower stay within 0..5. */
  predicate LevelsOk(towers: seq<Tower>) {
    forall i :: 0 <= i < |towers| ==>
      0 <= towers[i].damageLevel <= MaxUpgradeLevel && 0 <= towers[i].rangeLevel <= MaxUpgradeLevel &&
      0 <= towers[i].fireRateLevel <= MaxUpgradeLevel
  }

  /**
    An upgrade charges 50 + 25 x the current level and raises that level by
    one, or changes nothing; levels stay at most 5 and money never goes
    below zero. Only the panel's tower changes. Damage goes up by 10, range
    by 15, and the fire rate (frames between shots) down by 5 while it is
    above 20.
   */
  lemma UpgradeCharges(g: Game, button: UpgradeButton)
    requires g.upgrading.Some? && g.upgrading.value < |g.towers| && LevelsOk(g.towers) && g.money >= 0
    ensures var r, i := Upgrade(g, button), g.upgrading.value;
      LevelsOk(r.towers) && r.money >= 0 && |r.towers| == |g.towers| &&
      (forall j :: 0 <= j < |g.towers| && j != i ==> r.towers[j] == g.towers[j]) &&
      (r.money == g.money || r.money < g.money)
    ensures var r, t := Upgrade(g, button), g.towers[g.upgrading.value];
      button == DamageButton && r != g ==>
        r.money == g.money - UpgradeCost(t.damageLevel) &&
        r.towers[g.upgrading.value] == t.(damage := t.damage + 10, damageLevel := t.damageLevel + 1)
    ensures var r, t := Upgrade(g, button), g.towers[g.upgrading.value];
      button == DamageButton && (t.damageLevel >= MaxUpgradeLevel || g.money < UpgradeCost(t.damageLevel)) ==> r == g
    ensures var r, t := Upgrade(g, button), g.towers[g.upgrading.value];
      button == DamageButton && t.damageLevel < MaxUpgradeLevel && g.money >= UpgradeCost(t.damageLevel) ==>
        r.money == g.money - UpgradeCost(t.damageLevel) && r.money < g.money
    ensures var r, t := Upgrade(g, button), g.towers[g.upgrading.value];
      button == RangeButton && t.rangeLevel < MaxUpgradeLevel && g.money >= UpgradeCost(t.rangeLevel) ==>
        r.money == g.money - UpgradeCost(t.rangeLevel) &&
        r.towers[g.upgrading.value] == t.(range := t.range + 15, rangeLevel := t.rangeLevel + 1)
    ensures var r, t := Upgrade(g, button), g.towers[g.upgrading.value];
      button == RangeButton && (t.rangeLevel >= MaxUpgradeLevel || g.money < UpgradeCost(t.rangeLevel)) ==> r == g
    ensures var r, t := Upgrade(g, button), g.towers[g.upgrading.value];
      button == FireRateButton && t.fireRateLevel < MaxUpgradeLevel && g.money >= UpgradeCost(t.fireRateLevel) ==>
        r.money == g.money - UpgradeCost(t.fireRateLevel) &&
        r.towers[g.upgrading.value].fireRateLevel == t.fireRateLevel + 1 &&
        (t.fireRate > 20 ==> r.towers[g.upgrading.value].fireRate == t.fireRate - 5) &&
        (t.fireRate <= 20 ==> r.towers[g.upgrading.value].fireRate == t.fireRate) &&
        r.towers[g.upgrading.value] == t.(fireRate := r.towers[g.upgrading.value].fireRate, fireRateLevel := t.fireRateLevel + 1)
    ensures var r, t := Upgrade(g, button), g.towers[g.upgrading.value];
      button == FireRateButton && (t.fireRateLevel >= MaxUpgradeLevel || g.money < UpgradeCost(t.fireRateLevel)) ==> r == g
  {
  }

  /**
    A shop tower's fire rate never drops below 35: the basic tower starts
    at 60 and loses 5 for each of at most five upgrades, and the others
    stay at 0.
   */
  lemma {:induction false} FireRatePresses(g: Game, n: nat)
    requires g.upgrading.Some? && g.upgrading.value < |g.towers|
    requires var t := g.towers[g.upgrading.value];
      t == NewTower(Basic, t.x, t.y).(damage := t.damage, range := t.range, damageLevel := t.damageLevel, rangeLevel := t.rangeLevel)
    requires n <= MaxUpgradeLevel
    requires g.money >= UpgradeSpend(0, n)
    ensures var r, t := Presses(g, FireRateButton, n), g.towers[g.upgrading.value];
      r.money == g.money - UpgradeSpend(0, n) &&
      r.towers[g.upgrading.value] == t.(fireRate := 60 - 5 * n, fireRateLevel := n) &&
      r.towers[g.upgrading.value].fireRate >= 35
  {
    FireRatePressesFrom(g, 0, n);
  }

  /** The fire-rate presses from level k to n on a basic tower whose fire rate still shows k presses. */
  lemma {:induction false} FireRatePressesFrom(g: Game, k: nat, n: nat)
    requires g.upgrading.Some? && g.upgrading.value < |g.towers|
    requires k <= n <= MaxUpgradeLevel
    requires var t := g.towers[g.upgrading.value]; t.fireRate == 60 - 5 * k && t.fireRateLevel == k
    requires g.money >= UpgradeSpend(k, n)
    ensures var r, t := Presses(g, FireRateButton, n - k), g.towers[g.upgrading.value];
      r.money == g.money - UpgradeSpend(k, n) &&
      r.towers[g.upgrading.value] == t.(fireRate := 60 - 5 * n, fireRateLevel := n)
    decreases n - k
  {
    if k < n {
      var t := g.towers[g.upgrading.value];
      var r := Upgrade(g, FireRateButton);
      assert r.towers[g.upgrading.value] == t.(fireRate := 60 - 5 * (k + 1), fireRateLevel := k + 1);
      FireRatePressesFrom(r, k + 1, n);
    }
  }

  /**
    For a sniper, rapid-fire or shotgun tower (fire rate 0) the fire-rate
    upgrade takes the money and raises the level, and nothing else.
   */
  lemma FireRateUpgradeIsIdle(g: Game)
    requires g.upgrading.Some? && g.upgrading.value < |g.towers|
    requires var t := g.towers[g.upgrading.value]; t.fireRate == 0 && t.fireRateLevel < MaxUpgradeLevel
    requires g.money >= UpgradeCost(g.towers[g.upgrading.value].fireRateLevel)
    ensures var r, t := Upgrade(g, FireRateButton), g.towers[g.upgrading.value];
      r.money == g.money - UpgradeCost(t.fireRateLevel) &&
      r.towers[g.upgrading.value] == t.(fireRateLevel := t.fireRateLevel + 1)
  {
  }

  /** Bringing a stat from level 0 to level 5 costs 500 in all. */
  function UpgradeSpend(from: nat, to: int): nat
    decreases to - from
  {
    if from >= to then 0 else UpgradeCost(from) + UpgradeSpend(from + 1, to)
  }

  /** Pressing one upgrade button n times from level 0 (with the money for it) reaches level n, damage + 10 n. */
  function Presses(g: Game, button: UpgradeButton, n: nat): Game
    requires g.upgrading.Some? && g.upgrading.value < |g.towers| && button != CloseButton
    ensures Presses(g, button, n).upgrading == g.upgrading && |Presses(g, button, n).towers| == |g.towers|
    decreases n
  {
    if n == 0 then g
    else
      var r := Upgrade(g, button);
      Presses(r, button, n - 1)
  }

  lemma {:induction false} DamagePresses(g: Game, n: nat)
    requires g.upgrading.Some? && g.upgrading.value < |g.towers|
    requires var t := g.towers[g.upgrading.value]; 0 <= t.damageLevel && t.damageLevel + n <= MaxUpgradeLevel
    requires g.money >= UpgradeSpend(g.towers[g.upgrading.value].damageLevel, g.towers[g.upgrading.value].damageLevel + n)
    ensures var r, t := Presses(g, DamageButton, n), g.towers[g.upgrading.value];
      r.money == g.money - UpgradeSpend(t.damageLevel, t.damageLevel + n) &&
      r.towers[g.upgrading.value] == t.(damage := t.damage + 10 * n, damageLevel := t.damageLevel + n)
    decreases n
  {
    if n > 0 {
      var t := g.towers[g.upgrading.value];
      var r := Upgrade(g, DamageButton);
      assert r.towers[g.upgrading.value] == t.(damage := t.damage + 10, damageLevel := t.damageLevel + 1);
      DamagePresses(r, n - 1);
    }
  }

  lemma FullUpgradeCosts500()
    ensures UpgradeSpend(0, MaxUpgradeLevel) == 500
  {
  }
}
