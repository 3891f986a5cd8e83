/**
  The arena game of NewStart.java: the player's movement, clamping and
  levelling, the direction a bullet flies, the size of each enemy wave and
  the integer effects of the level-up upgrades. Random draws (enemy
  positions, the shuffle of the upgrade pool) are parameters; the enemies'
  floating-point pursuit and the attack-speed upgrade are not modelled.
 */
module NewStart {

  const ArenaWidth: int := 1280
  const ArenaHeight: int := 720
  const PlayerSize: int := 30
  const PlayerSpeed: int := 5
  const BulletSpeed: int := 8

  /** The largest x and y the player's top-left corner may take. */
  const MaxX: int := ArenaWidth - PlayerSize
  const MaxY: int := ArenaHeight - PlayerSize

  datatype Player = Player(
    x: int, y: int, dx: int, dy: int,
    direction: string,
    damage: int, maxHP: int, currentHP: int, dodge: int,
    level: int, exp: int)

  /** `new Player(x, y)`: standing still, facing right, level 1. */
  function NewPlayer(x: int, y: int): Player {
    Player(x, y, 0, 0, "right", 10, 100, 100, 5, 1, 0)
  }

  // ---- update --------------------------------------------------------------------------

  /** `Math.max(lo, Math.min(v, hi))`. */
  function Clamp(v: int, lo: int, hi: int): (r: int)
    requires lo <= hi
    ensures lo <= r <= hi
    ensures lo <= v <= hi ==> r == v
    ensures v < lo ==> r == lo
    ensures v > hi ==> r == hi
  {
    if v < lo then lo else if v > hi then hi else v
  }

  /** One timer tick: move by the velocity, then pull the position back into the arena. */
  function Update(p: Player): (r: Player)
    ensures 0 <= r.x <= MaxX && 0 <= r.y <= MaxY
    ensures 0 <= p.x + p.dx <= MaxX ==> r.x == p.x + p.dx
    ensures 0 <= p.y + p.dy <= MaxY ==> r.y == p.y + p.dy
    ensures r == p.(x := r.x, y := r.y)
  {
    p.(x := Clamp(p.x + p.dx, 0, MaxX), y := Clamp(p.y + p.dy, 0, MaxY))
  }

  function Abs(v: int): nat {
    if v < 0 then -v else v
  }

  /**
    The clamp is the nearest point of the arena: no position inside it is
    closer, on either axis, to where the velocity would have taken the
    player.
   */
  lemma UpdateIsNearest(p: Player, x: int, y: int)
    requires 0 <= x <= MaxX && 0 <= y <= MaxY
    ensures Abs(Update(p).x - (p.x + p.dx)) <= Abs(x - (p.x + p.dx))
    ensures Abs(Update(p).y - (p.y + p.dy)) <= Abs(y - (p.y + p.dy))
  {
  }

  /** A player standing still inside the arena stays where they are. */
  lemma UpdateStill(p: Player)
    requires p.dx == 0 && p.dy == 0 && 0 <= p.x <= MaxX && 0 <= p.y <= MaxY
    ensures Update(p) == p
  {
  }

  // ---- keys ----------------------------------------------------------------------------

  datatype Key = KeyW | KeyUp | KeyS | KeyDown | KeyA | KeyLeft | KeyD | KeyRight | KeySpace | OtherKey(code: int)

  predicate IsVertical(k: Key) {
    k == KeyW || k == KeyUp || k == KeyS || k == KeyDown
  }

  predicate IsHorizontal(k: Key) {
    k == KeyA || k == KeyLeft || k == KeyD || k == KeyRight
  }

  /** The four directions a key press can face the player in. */
  predicate IsFacing(d: string) {
    d == "up" || d == "down" || d == "left" || d == "right"
  }

  /** Player.keyPressed: a movement key sets the velocity on its axis and the facing. */
  function KeyPressed(p: Player, k: Key): (r: Player)
    ensures (k == KeyW || k == KeyUp) ==> r.dy == -PlayerSpeed && r.dx == p.dx && r.direction == "up"
    ensures (k == KeyS || k == KeyDown) ==> r.dy == PlayerSpeed && r.dx == p.dx && r.direction == "down"
    ensures (k == KeyA || k == KeyLeft) ==> r.dx == -PlayerSpeed && r.dy == p.dy && r.direction == "left"
    ensures (k == KeyD || k == KeyRight) ==> r.dx == PlayerSpeed && r.dy == p.dy && r.direction == "right"
    ensures !IsVertical(k) && !IsHorizontal(k) ==> r == p
    ensures r == p.(dx := r.dx, dy := r.dy, direction := r.direction)
  {
    match k
    case KeyW | KeyUp => p.(dy := -PlayerSpeed, direction := "up")
    case KeyS | KeyDown => p.(dy := PlayerSpeed, direction := "down")
    case KeyA | KeyLeft => p.(dx := -PlayerSpeed, direction := "left")
    case KeyD | KeyRight => p.(dx := PlayerSpeed, direction := "right")
    case _ => p
  }

  /** Player.keyReleased: a vertical key stops vertical motion, a horizontal key horizontal motion. */
  function KeyReleased(p: Player, k: Key): (r: Player)
    ensures IsVertical(k) ==> r == p.(dy := 0)
    ensures IsHorizontal(k) ==> r == p.(dx := 0)
    ensures !IsVertical(k) && !IsHorizontal(k) ==> r == p
  {
    if IsVertical(k) then p.(dy := 0)
    else if IsHorizontal(k) then p.(dx := 0)
    else p
  }

  /**
    Pressing and releasing a movement key stops motion on its axis only,
    leaves the player facing the key's way, and keeps every statistic.
   */
  lemma PressThenRelease(p: Player, k: Key)
    requires IsVertical(k) || IsHorizontal(k)
    ensures var r := KeyReleased(KeyPressed(p, k), k);
      (IsVertical(k) ==> r.dy == 0 && r.dx == p.dx) &&
      (IsHorizontal(k) ==> r.dx == 0 && r.dy == p.dy) &&
      IsFacing(r.direction) &&
      r == p.(dx := r.dx, dy := r.dy, direction := r.direction)
  {
  }

  /** The velocity a player can have after any sequence of key events. */
  predicate VelocityOk(p: Player) {
    (p.dx == 0 || p.dx == PlayerSpeed || p.dx == -PlayerSpeed) &&
    (p.dy == 0 || p.dy == PlayerSpeed || p.dy == -PlayerSpeed) &&
    IsFacing(p.direction)
  }

  /** Every event keeps the velocity to a speed of 5 per axis and the facing to one of four. */
  lemma EventsKeepVelocityOk(p: Player, k: Key)
    requires VelocityOk(p)
    ensures VelocityOk(KeyPressed(p, k)) && VelocityOk(KeyReleased(p, k)) && VelocityOk(Update(p))
  {
  }

  // ---- bullets -------------------------------------------------------------------------

  datatype Bullet = Bullet(x: int, y: int, dx: int, dy: int)

  /** The Bullet constructor's switch on the direction string; anything unknown flies right. */
  function NewBullet(x: int, y: int, direction: string): (b: Bullet)
    ensures b.x == x && b.y == y
    ensures Abs(b.dx) + Abs(b.dy) == BulletSpeed && (b.dx == 0 || b.dy == 0)
    ensures direction == "up" <==> b.dy < 0
    ensures direction == "down" <==> b.dy > 0
    ensures direction == "left" <==> b.dx < 0
    ensures (direction == "right" || !IsFacing(direction)) <==> b.dx > 0
  {
    if direction == "up" then Bullet(x, y, 0, -BulletSpeed)
    else if direction == "down" then Bullet(x, y, 0, BulletSpeed)
    else if direction == "left" then Bullet(x, y, -BulletSpeed, 0)
    else Bullet(x, y, BulletSpeed, 0)
  }

  /**
    GamePanel.keyPressed: the player reacts to the key, and the space bar
    also fires a bullet from the player's centre in the facing direction.
   */
  function Fire(p: Player, bullets: seq<Bullet>, k: Key): (r: (Player, seq<Bullet>))
    ensures r.0 == KeyPressed(p, k)
    ensures k == KeySpace ==> r.1 == bullets + [NewBullet(p.x + PlayerSize / 2, p.y + PlayerSize / 2, p.direction)]
    ensures k != KeySpace ==> r.1 == bullets
  {
    var q := KeyPressed(p, k);
    if k == KeySpace then (q, bullets + [NewBullet(q.x + 15, q.y + 15, q.direction)])
    else (q, bullets)
  }

  /**
    A bullet fired after a movement key flies along that key's axis, the
    same way the key moved the player, at speed 8 instead of 5.
   */
  lemma FireAlongLastKey(p: Player, k: Key)
    requires IsVertical(k) || IsHorizontal(k)
    ensures var q := KeyPressed(p, k);
      var b := Fire(q, [], KeySpace).1[0];
      (IsVertical(k) ==> b.dx == 0 && b.dy * PlayerSpeed == q.dy * BulletSpeed) &&
      (IsHorizontal(k) ==> b.dy == 0 && b.dx * PlayerSpeed == q.dx * BulletSpeed)
  {
  }

  // ---- levelling ----------------------------------------------------------------------

  /** The experience needed to leave a level. */
  function ExpNeeded(level: int): int {
    level * 100
  }

  /** addExp: at most one level-up per call, paid for out of the experience. */
  function AddExp(p: Player, amount: int): (r: Player)
    ensures p.exp + amount >= ExpNeeded(p.level) ==>
      r.level == p.level + 1 && r.exp == p.exp + amount - ExpNeeded(p.level)
    ensures p.exp + amount < ExpNeeded(p.level) ==> r.level == p.level && r.exp == p.exp + amount
    ensures r == p.(level := r.level, exp := r.exp)
  {
    var e := p.exp + amount;
    var needed := p.level * 100;
    if e >= needed then p.(level := p.level + 1, exp := e - needed) else p.(exp := e)
  }

  /** All the experience ever earned: what levels 1 to level-1 cost, plus what is held. */
  function TotalExp(p: Player): int {
    50 * p.level * (p.level - 1) + p.exp
  }

  /** Gaining experience never loses any: the total grows by exactly the amount. */
  lemma AddExpKeepsTotal(p: Player, amount: int)
    ensures TotalExp(AddExp(p, amount)) == TotalExp(p) + amount
  {
    var r := AddExp(p, amount);
    if p.exp + amount >= ExpNeeded(p.level) {
      calc {
        TotalExp(r);
        50 * (p.level + 1) * p.level + p.exp + amount - p.level * 100;
        { assert 50 * (p.level + 1) * p.level == 50 * p.level * (p.level - 1) + 100 * p.level; }
        TotalExp(p) + amount;
      }
    }
  }

  /**
    With a small enough award the experience stays below the next
    threshold; a large one can leave enough for a second level-up that
    this call does not take.
   */
  lemma AddExpOneLevelAtATime()
    ensures var r := AddExp(NewPlayer(0, 0), 350);
      r.level == 2 && r.exp == 250 && r.exp >= ExpNeeded(r.level)
  {
  }

  lemma AddExpBelowThreshold(p: Player, amount: int)
    requires p.level >= 1 && 0 <= p.exp < ExpNeeded(p.level)
    requires 0 <= amount <= ExpNeeded(p.level) + 100
    ensures var r := AddExp(p, amount); 0 <= r.exp < ExpNeeded(r.level) && p.level <= r.level <= p.level + 1
  {
  }

  // ---- waves ---------------------------------------------------------------------------

  datatype Enemy = Enemy(x: int, y: int, width: int, height: int, speed: int)

  /** An enemy's position as `(int)(Math.random() * 1200)`, `(int)(Math.random() * 720)` can draw it. */
  predicate PositionDraw(d: (int, int)) {
    0 <= d.0 < 1200 && 0 <= d.1 < ArenaHeight
  }

  /** Enemies at the given positions, in order, one per draw. */
  function SpawnAt(draws: seq<(int, int)>): (enemies: seq<Enemy>)
    requires forall i :: 0 <= i < |draws| ==> PositionDraw(draws[i])
    ensures |enemies| == |draws|
    ensures forall i :: 0 <= i < |enemies| ==>
      enemies[i].width == 20 && enemies[i].height == 20 && enemies[i].speed == 2 &&
      0 <= enemies[i].x < 1200 && 0 <= enemies[i].y < ArenaHeight
    decreases |draws|
  {
    if |draws| == 0 then []
    else
      var last := draws[|draws| - 1];
      assert PositionDraw(last);
      SpawnAt(draws[..|draws| - 1]) + [Enemy(last.0, last.1, 20, 20, 2)]
  }

  /** spawnWave: the enemy list becomes 2·wave fresh enemies at the drawn positions. */
  function SpawnWave(wave: nat, draws: seq<(int, int)>): (enemies: seq<Enemy>)
    requires |draws| == 2 * wave
    requires forall i :: 0 <= i < |draws| ==> PositionDraw(draws[i])
    ensures |enemies| == 2 * wave
  {
    SpawnAt(draws)
  }

  /** The arena between events: the player, the enemies, the bullets, and the wave number. */
  datatype Arena = Arena(player: Player, enemies: seq<Enemy>, bullets: seq<Bullet>, wave: nat)

  /** The game panel's constructor: the player at (600, 350) and the first wave. */
  function NewArena(draws: seq<(int, int)>): (a: Arena)
    requires |draws| == 2
    requires forall i :: 0 <= i < |draws| ==> PositionDraw(draws[i])
  {
    Arena(NewPlayer(600, 350), SpawnWave(1, draws), [], 1)
  }

  /**
    The level-up that follows a cleared wave: the chosen upgrade is
    applied, the wave number rises and the next wave is spawned.
   */
  function NextWave(a: Arena, choice: Upgrade, draws: seq<(int, int)>): (r: Arena)
    requires |a.enemies| == 0
    requires |draws| == 2 * (a.wave + 1)
    requires forall i :: 0 <= i < |draws| ==> PositionDraw(draws[i])
  {
    Arena(Apply(a.player, choice), SpawnWave(a.wave + 1, draws), a.bullets, a.wave + 1)
  }

  /** Each wave is two enemies bigger than the last: wave n has 2·n enemies. */
  lemma WavesGrow(a: Arena, choice: Upgrade, draws: seq<(int, int)>)
    requires |a.enemies| == 0
    requires |draws| == 2 * (a.wave + 1)
    requires forall i :: 0 <= i < |draws| ==> PositionDraw(draws[i])
    ensures var r := NextWave(a, choice, draws); r.wave == a.wave + 1 && |r.enemies| == 2 * r.wave
    ensures NextWave(a, choice, draws).player.level == a.player.level
  {
  }

  lemma NewArenaOk(draws: seq<(int, int)>)
    requires |draws| == 2
    requires forall i :: 0 <= i < |draws| ==> PositionDraw(draws[i])
    ensures var a := NewArena(draws);
      a.wave == 1 && |a.enemies| == 2 && VelocityOk(a.player) && a.player.level == 1 &&
      0 <= a.player.x <= MaxX && 0 <= a.player.y <= MaxY
  {
  }

  // ---- upgrades ------------------------------------------------------------------------

  datatype Upgrade = IncreaseDamage | IncreaseMaxHP | IncreaseAttackSpeed | IncreaseDodge

  /** The pool in the order generateUpgrades builds it. */
  const Pool: seq<Upgrade> := [IncreaseDamage, IncreaseMaxHP, IncreaseAttackSpeed, IncreaseDodge]

  /** An upgrade's effect on the player's integer statistics. */
  function Apply(p: Player, u: Upgrade): (r: Player)
    ensures r.damage == p.damage + (if u == IncreaseDamage then 5 else 0)
    ensures r.maxHP == p.maxHP + (if u == IncreaseMaxHP then 10 else 0)
    ensures r.currentHP == p.currentHP + (if u == IncreaseMaxHP then 10 else 0)
    ensures r.dodge == p.dodge + (if u == IncreaseDodge then 5 else 0)
    ensures r == p.(damage := r.damage, maxHP := r.maxHP, currentHP := r.currentHP, dodge := r.dodge)
  {
    match u
    case IncreaseDamage => p.(damage := p.damage + 5)
    case IncreaseMaxHP => p.(maxHP := p.maxHP + 10, currentHP := p.currentHP + 10)
    case IncreaseAttackSpeed => p
    case IncreaseDodge => p.(dodge := p.dodge + 5)
  }

  /** The Max HP upgrade heals as much as it raises the cap, so the missing HP is unchanged. */
  lemma ApplyKeepsMissingHP(p: Player, u: Upgrade)
    ensures Apply(p, u).maxHP - Apply(p, u).currentHP == p.maxHP - p.currentHP
    ensures p.currentHP <= p.maxHP ==> Apply(p, u).currentHP <= Apply(p, u).maxHP
  {
  }

  /**
    generateUpgrades: `shuffled` is the pool after Collections.shuffle,
    and the first three are offered.
   */
  function GenerateUpgrades(shuffled: seq<Upgrade>): (offer: seq<Upgrade>)
    requires multiset(shuffled) == multiset(Pool)
    ensures |offer| == 3
  {
    shuffled[..3]
  }

  /** Two equal entries of a sequence give its multiset a count of at least two. */
  lemma {:induction false} RepeatCounts<T>(s: seq<T>, i: nat, j: nat)
    requires i < j < |s| && s[i] == s[j]
    ensures multiset(s)[s[i]] >= 2
  {
    assert s == s[..i] + [s[i]] + s[i + 1..j] + [s[j]] + s[j + 1..];
    calc >= {
      multiset(s)[s[i]];
      { assert multiset(s) == multiset(s[..i]) + multiset{s[i]} + multiset(s[i + 1..j]) + multiset{s[j]} + multiset(s[j + 1..]); }
      multiset{s[i]}[s[i]] + multiset{s[j]}[s[i]];
    }
  }

  /** Each upgrade occurs once in the pool. */
  lemma PoolOnce(u: Upgrade)
    ensures multiset(Pool)[u] == 1
  {
    assert multiset(Pool) == multiset{IncreaseDamage, IncreaseMaxHP, IncreaseAttackSpeed, IncreaseDodge};
  }

  /** A shuffle of the pool has four different entries. */
  lemma {:induction false} ShuffleDistinct(shuffled: seq<Upgrade>)
    requires multiset(shuffled) == multiset(Pool)
    ensures |shuffled| == 4
    ensures forall i, j :: 0 <= i < j < |shuffled| ==> shuffled[i] != shuffled[j]
  {
    assert |shuffled| == |multiset(Pool)| == 4;
    forall i, j | 0 <= i < j < |shuffled|
      ensures shuffled[i] != shuffled[j]
    {
      if shuffled[i] == shuffled[j] {
        RepeatCounts(shuffled, i, j);
        PoolOnce(shuffled[i]);
        assert false;
      }
    }
  }

  /**
    The offer holds three different upgrades, and it holds every upgrade of
    the pool except the one the shuffle put last.
   */
  lemma {:induction false} OfferAllButOne(shuffled: seq<Upgrade>, u: Upgrade)
    requires multiset(shuffled) == multiset(Pool)
    ensures forall i, j :: 0 <= i < j < 3 ==> GenerateUpgrades(shuffled)[i] != GenerateUpgrades(shuffled)[j]
    ensures u in GenerateUpgrades(shuffled) <==> u != shuffled[3]
  {
    ShuffleDistinct(shuffled);
    var offer := GenerateUpgrades(shuffled);
    assert shuffled == offer + [shuffled[3]];
    PoolOnce(u);
    assert u in multiset(shuffled);
    assert u in shuffled;
  }
}
