/** The per-tick rules of one fighter, as pure functions over its state.
    Each public operation of the fighter has one function here; the class in
    module GameTestBUTO is proved to change its fields exactly as these say. */
module PlayerRules {

  // Size of every fighter's body (set once in the constructor, never changed).
  const Width: int := 50
  const Height: int := 100
  // Maximum horizontal speed, 5 units per tick, written in half-units.
  const MaxHalfSpeed: int := 10
  // Geometry of the sword box.
  const SwordLength: int := 50
  const SwordWidth: int := 10
  // Vertical motion: the upward impulse of a jump and the per-tick gravity.
  const JumpVelocity: int := -15
  const Gravity: int := 1
  // Knockback: distance per tick and number of ticks.
  const KnockbackStep: int := 10
  const KnockbackTicks: int := 10
  const AttackDamage: int := 10
  const MaxHealth: int := 100

  /** The side of the body the sword is drawn on (the Java class stores it as
      the string "left" or "right"). */
  datatype Facing = Left | Right

  /** Everything a fighter holds. The horizontal velocity only ever moves in
      steps of 0.5, so it is kept exactly as a count of half-units:
      velocityX == halfVelocityX / 2. The last three fields never change after
      construction: the respawn anchor and the surface height of the platform. */
  datatype PlayerState = PlayerState(
    x: int,
    y: int,
    health: int,
    isJumping: bool,
    isAttacking: bool,
    isBlocking: bool,
    isKnockedBack: bool,
    knockbackDirection: int,
    knockbackTime: int,
    velocityY: int,
    isMovingLeft: bool,
    isMovingRight: bool,
    halfVelocityX: int,
    isDead: bool,
    lastDirection: Facing,
    respawnX: int,
    respawnY: int,
    platformY: int)

  function Max(a: int, b: int): (r: int) { if a >= b then a else b }
  function Min(a: int, b: int): (r: int) { if a <= b then a else b }
  function Abs(a: int): (r: int) { if a >= 0 then a else -a }
  function Sign(a: int): (r: int) { if a > 0 then 1 else if a < 0 then -1 else 0 }

  /** The object invariant the operations keep: health within [0, 100] and zero
      exactly when dead, speed at most 5, a knockback flag that is set exactly
      while ticks remain, and a pending jump only on the ground. */
  predicate Valid(s: PlayerState)
  {
    && 0 <= s.health <= MaxHealth
    && (s.isDead <==> s.health == 0)
    && -MaxHalfSpeed <= s.halfVelocityX <= MaxHalfSpeed
    && 0 <= s.knockbackTime <= KnockbackTicks
    && (s.isKnockedBack <==> s.knockbackTime > 0)
    && -1 <= s.knockbackDirection <= 1
    && (s.isJumping ==> s.y == s.platformY)
  }

  /** The fields a respawn anchored at (x, y) resets. */
  predicate AtAnchor(s: PlayerState)
  {
    && s.x == s.respawnX && s.y == s.respawnY
    && s.health == MaxHealth && !s.isDead
    && !s.isJumping && !s.isAttacking && !s.isBlocking
    && s.velocityY == 0 && s.halfVelocityX == 0 && s.lastDirection == Right
  }

  /** A new fighter standing at (x, y) above a platform whose surface is at platformY. */
  function Initial(x: int, y: int, platformY: int): (r: PlayerState)
    ensures Valid(r) && AtAnchor(r)
    ensures r.respawnX == x && r.respawnY == y && r.platformY == platformY
    ensures !r.isMovingLeft && !r.isMovingRight && !r.isKnockedBack && r.knockbackTime == 0
  {
    PlayerState(x, y, MaxHealth, false, false, false, false, 0, 0, 0,
                false, false, 0, false, Right, x, y, platformY)
  }

  /** The cast (int) of the half-integer n / 2: Java narrows a double to an int
      by truncating toward zero, so the result is n / 2 rounded toward zero. */
  function IntOfHalves(n: int): (r: int)
    ensures 0 <= n ==> 2 * r <= n <= 2 * r + 1
    ensures n < 0 ==> 2 * r - 1 <= n <= 2 * r
  {
    if n >= 0 then n / 2 else -((-n) / 2)
  }

  // ---------------------------------------------------------------- update

  /** One tick while knocked back: slide one step, count one tick down, and end
      the knockback when no ticks remain. Nothing else moves. */
  function KnockbackTick(s: PlayerState): (r: PlayerState)
    ensures r.x == s.x + s.knockbackDirection * KnockbackStep
    ensures r.knockbackTime == s.knockbackTime - 1
    ensures r.isKnockedBack <==> s.isKnockedBack && r.knockbackTime > 0
    ensures r.(x := s.x, knockbackTime := s.knockbackTime, isKnockedBack := s.isKnockedBack) == s
  {
    var time := s.knockbackTime - 1;
    s.(x := s.x + s.knockbackDirection * KnockbackStep,
       knockbackTime := time,
       isKnockedBack := if time <= 0 then false else s.isKnockedBack)
  }

  /** The vertical velocity the tick integrates: a pending jump replaces it. */
  function LaunchVelocity(s: PlayerState): (r: int)
  {
    if s.isJumping then JumpVelocity else s.velocityY
  }

  /** Gravity: consume a pending jump, integrate, and land on the platform. */
  function Fall(s: PlayerState): (r: PlayerState)
    ensures !r.isJumping
    ensures r.y == Min(s.y + LaunchVelocity(s), s.platformY)
    ensures r.y < s.platformY ==> r.velocityY == LaunchVelocity(s) + Gravity
    ensures r.y == s.platformY ==> r.velocityY == 0
    ensures r.(isJumping := s.isJumping, y := s.y, velocityY := s.velocityY) == s
  {
    var vy := LaunchVelocity(s);
    var y := s.y + vy;
    if y >= s.platformY then s.(isJumping := false, y := s.platformY, velocityY := 0)
    else s.(isJumping := false, y := y, velocityY := vy + Gravity)
  }

  /** The horizontal velocity after one normal tick, in half-units: accelerate
      by 0.5 toward the held direction without passing the maximum speed, or,
      with no direction held, slow by 0.5 toward zero. */
  function NextHalfVelocityX(v: int, left: bool, right: bool): (r: int)
    ensures Abs(v) <= MaxHalfSpeed ==> Abs(r) <= MaxHalfSpeed
    ensures left ==> (v > -MaxHalfSpeed ==> r == v - 1) && (v <= -MaxHalfSpeed ==> r == -MaxHalfSpeed)
    ensures !left && right ==> (v < MaxHalfSpeed ==> r == v + 1) && (v >= MaxHalfSpeed ==> r == MaxHalfSpeed)
    ensures !left && !right ==> Abs(r) == Max(0, Abs(v) - 1) && (r == 0 || Sign(r) == Sign(v))
  {
    if left then Max(v - 1, -MaxHalfSpeed)
    else if right then Min(v + 1, MaxHalfSpeed)
    else Sign(v) * Max(0, Abs(v) - 1)
  }

  /** Horizontal movement: new velocity, facing updated only while a direction
      is held, and the position moved by the new velocity, truncated to an int. */
  function Walk(s: PlayerState): (r: PlayerState)
    ensures r.halfVelocityX == NextHalfVelocityX(s.halfVelocityX, s.isMovingLeft, s.isMovingRight)
    ensures s.isMovingLeft ==> r.lastDirection == Left
    ensures !s.isMovingLeft && s.isMovingRight ==> r.lastDirection == Right
    ensures !s.isMovingLeft && !s.isMovingRight ==> r.lastDirection == s.lastDirection
    ensures r.x == IntOfHalves(2 * s.x + r.halfVelocityX)
    ensures Abs(2 * r.x - (2 * s.x + r.halfVelocityX)) <= 1
    ensures r.(x := s.x, halfVelocityX := s.halfVelocityX, lastDirection := s.lastDirection) == s
  {
    var v := NextHalfVelocityX(s.halfVelocityX, s.isMovingLeft, s.isMovingRight);
    var facing := if s.isMovingLeft then Left else if s.isMovingRight then Right else s.lastDirection;
    s.(halfVelocityX := v, lastDirection := facing, x := IntOfHalves(2 * s.x + v))
  }

  /** update(): nothing while dead; a knockback tick while knocked back;
      otherwise gravity then horizontal movement. */
  function Update(s: PlayerState): (r: PlayerState)
    ensures s.isDead ==> r == s
    ensures Valid(s) ==> Valid(r)
    // knockback and normal movement never apply in the same tick
    ensures !s.isDead && s.isKnockedBack ==> r == KnockbackTick(s)
    ensures !s.isDead && !s.isKnockedBack ==> r == Walk(Fall(s))
    ensures s.isKnockedBack ==> r.y == s.y && r.velocityY == s.velocityY && r.halfVelocityX == s.halfVelocityX
    ensures !s.isKnockedBack ==> !r.isKnockedBack && r.knockbackTime == s.knockbackTime
    ensures !s.isDead && !s.isKnockedBack ==> r.y <= s.platformY
    // what a tick never touches
    ensures r.isDead == s.isDead && r.health == s.health
    ensures r.isAttacking == s.isAttacking && r.isBlocking == s.isBlocking
    ensures r.isMovingLeft == s.isMovingLeft && r.isMovingRight == s.isMovingRight
    ensures r.knockbackDirection == s.knockbackDirection
    ensures r.respawnX == s.respawnX && r.respawnY == s.respawnY && r.platformY == s.platformY
  {
    if s.isDead then s
    else if s.isKnockedBack then KnockbackTick(s)
    else Walk(Fall(s))
  }

  // ---------------------------------------------------------------- attack

  /** Left edge of the sword box: in front of the body on the facing side. */
  function SwordX(s: PlayerState): (r: int)
  {
    if s.lastDirection == Right then s.x + Width else s.x - SwordLength
  }

  /** Top edge of the sword box, a third of the way down the body. */
  function SwordY(s: PlayerState): (r: int)
  {
    s.y + Height / 3
  }

  /** The half-open intervals [lo1, lo1 + len1) and [lo2, lo2 + len2) intersect. */
  predicate Overlap(lo1: int, len1: int, lo2: int, len2: int)
  {
    lo1 < lo2 + len2 && lo1 + len1 > lo2
  }

  /** isSwordCollidingWith: the sword box of a overlaps the body box of o. */
  predicate SwordHits(a: PlayerState, o: PlayerState)
    ensures SwordHits(a, o) ==> a.x != o.x
  {
    Overlap(SwordX(a), SwordLength, o.x, Width) && Overlap(SwordY(a), SwordWidth, o.y, Height)
  }

  /** An attack by a lands on o: a is alive, its sword reaches o, and o is not blocking. */
  predicate Lands(a: PlayerState, o: PlayerState)
  {
    !a.isDead && SwordHits(a, o) && !o.isBlocking
  }

  /** What a landed blow does to the opponent: the attack damage, then a
      knockback of the full length in the given direction. */
  function Hit(o: PlayerState, direction: int): (r: PlayerState)
    ensures r.health == Max(0, o.health - AttackDamage)
    ensures r.isDead <==> o.isDead || o.health <= AttackDamage
    ensures r.knockbackDirection == direction
    ensures r.isKnockedBack && r.knockbackTime == KnockbackTicks
    ensures r.(health := o.health, isDead := o.isDead, knockbackDirection := o.knockbackDirection,
               isKnockedBack := o.isKnockedBack, knockbackTime := o.knockbackTime) == o
    ensures Valid(o) && -1 <= direction <= 1 ==> Valid(r)
  {
    TakeDamage(o, AttackDamage).(knockbackDirection := direction,
                                 isKnockedBack := true,
                                 knockbackTime := KnockbackTicks)
  }

  /** attack(opponent) on two distinct fighters: a living attacker raises its
      sword; when the blow lands the opponent is hit and pushed away from the
      attacker's side. */
  function Attack(a: PlayerState, o: PlayerState): (r: (PlayerState, PlayerState))
    ensures a.isDead ==> r == (a, o)
    ensures !a.isDead ==> r.0 == a.(isAttacking := true)
    ensures !Lands(a, o) ==> r.1 == o
    ensures o.isBlocking ==> r.1 == o
    ensures Lands(a, o) ==> r.1 == Hit(o, if a.x < o.x then 1 else -1)
    ensures Valid(a) && Valid(o) ==> Valid(r.0) && Valid(r.1)
  {
    if a.isDead then (a, o)
    else
      var raised := a.(isAttacking := true);
      if SwordHits(raised, o) && !o.isBlocking then
        (raised, Hit(o, if a.x < o.x then 1 else -1))
      else (raised, o)
  }

  // ---------------------------------------------------------------- input

  /** block(): a living fighter raises its guard. */
  function Block(s: PlayerState): (r: PlayerState)
    ensures s.isDead ==> r == s
    ensures !s.isDead ==> r.isBlocking
    ensures r.(isBlocking := s.isBlocking) == s
    ensures Valid(s) ==> Valid(r)
  {
    if s.isDead then s else s.(isBlocking := true)
  }

  /** moveLeft(): unless dead or knocked back, hold left and release right. */
  function MoveLeft(s: PlayerState): (r: PlayerState)
    ensures s.isDead || s.isKnockedBack ==> r == s
    ensures !s.isDead && !s.isKnockedBack ==> r.isMovingLeft && !r.isMovingRight
    ensures r.(isMovingLeft := s.isMovingLeft, isMovingRight := s.isMovingRight) == s
    ensures Valid(s) ==> Valid(r)
  {
    if !s.isDead && !s.isKnockedBack then s.(isMovingLeft := true, isMovingRight := false) else s
  }

  /** moveRight(): unless dead or knocked back, hold right and release left. */
  function MoveRight(s: PlayerState): (r: PlayerState)
    ensures s.isDead || s.isKnockedBack ==> r == s
    ensures !s.isDead && !s.isKnockedBack ==> r.isMovingRight && !r.isMovingLeft
    ensures r.(isMovingLeft := s.isMovingLeft, isMovingRight := s.isMovingRight) == s
    ensures Valid(s) ==> Valid(r)
  {
    if !s.isDead && !s.isKnockedBack then s.(isMovingRight := true, isMovingLeft := false) else s
  }

  /** jump(): only a living fighter standing exactly on the platform can ask
      for a jump; it is consumed by the next normal tick. */
  function Jump(s: PlayerState): (r: PlayerState)
    ensures r.isJumping <==> s.isJumping || (s.y == s.platformY && !s.isDead)
    ensures s.y != s.platformY || s.isDead ==> r == s
    ensures r.(isJumping := s.isJumping) == s
    ensures Valid(s) ==> Valid(r)
  {
    if s.y == s.platformY && !s.isDead then s.(isJumping := true) else s
  }

  /** stop(): a living fighter lowers sword and guard and releases both
      directions; knockback and a pending jump are left alone. */
  function Stop(s: PlayerState): (r: PlayerState)
    ensures s.isDead ==> r == s
    ensures !s.isDead ==> !r.isAttacking && !r.isBlocking && !r.isMovingLeft && !r.isMovingRight
    ensures r.(isAttacking := s.isAttacking, isBlocking := s.isBlocking,
               isMovingLeft := s.isMovingLeft, isMovingRight := s.isMovingRight) == s
    ensures Valid(s) ==> Valid(r)
  {
    if s.isDead then s
    else s.(isAttacking := false, isBlocking := false, isMovingLeft := false, isMovingRight := false)
  }

  // ---------------------------------------------------------------- health

  /** die(): mark the fighter dead. */
  function Die(s: PlayerState): (r: PlayerState)
    ensures r.isDead
    ensures r.(isDead := s.isDead) == s
  {
    s.(isDead := true)
  }

  /** takeDamage(damage): health drops by the damage, floored at zero, and the
      fighter dies when it reaches zero. The damage is not checked; with a
      non-negative damage the invariant is kept. */
  function TakeDamage(s: PlayerState, damage: int): (r: PlayerState)
    ensures r.health == Max(0, s.health - damage)
    ensures r.isDead <==> s.isDead || s.health - damage <= 0
    ensures s.health - damage > 0 ==> r.isDead == s.isDead
    ensures r.(health := s.health, isDead := s.isDead) == s
    ensures Valid(s) && damage >= 0 ==> Valid(r)
  {
    var health := s.health - damage;
    if health <= 0 then Die(s.(health := 0)) else s.(health := health)
  }

  /** respawn(): back to the anchor with full health, alive and at rest, facing
      right. The held directions and the knockback are kept as they were. */
  function Respawn(s: PlayerState): (r: PlayerState)
    ensures AtAnchor(r)
    ensures r.isMovingLeft == s.isMovingLeft && r.isMovingRight == s.isMovingRight
    ensures r.isKnockedBack == s.isKnockedBack && r.knockbackTime == s.knockbackTime
    ensures r.knockbackDirection == s.knockbackDirection
    ensures r.respawnX == s.respawnX && r.respawnY == s.respawnY && r.platformY == s.platformY
    ensures Valid(s) ==> Valid(r)
  {
    s.(x := s.respawnX, y := s.respawnY, health := MaxHealth, isDead := false,
       isJumping := false, isAttacking := false, isBlocking := false,
       velocityY := 0, halfVelocityX := 0, lastDirection := Right)
  }

  // ---------------------------------------------------------------- lemmas

  /** A respawned fighter is a newly built one, except for the held directions
      and the knockback, which respawn does not reset. */
  lemma RespawnIsInitialButForInputAndKnockback(s: PlayerState)
    ensures Respawn(s).(isMovingLeft := false, isMovingRight := false, isKnockedBack := false,
                        knockbackDirection := 0, knockbackTime := 0)
            == Initial(s.respawnX, s.respawnY, s.platformY)
  {
  }

  /** The invariant needs non-negative damage: a negative damage heals past
      full health, or gives a dead fighter health while it stays dead. */
  lemma NegativeDamageBreaksValid(s: PlayerState, damage: int)
    requires Valid(s) && damage < 0
    requires s.isDead || s.health == MaxHealth
    ensures !Valid(TakeDamage(s, damage))
  {
  }

  /** The sword never reaches its owner's body: facing right it starts where
      the body ends, facing left it ends where the body starts. */
  lemma SwordMissesOwner(s: PlayerState)
    ensures !SwordHits(s, s)
  {
  }

  /** Hence attacking oneself only raises the sword. */
  lemma SelfAttackOnlyRaisesSword(s: PlayerState)
    ensures Attack(s, s) == (if s.isDead then s else s.(isAttacking := true), s)
  {
    SwordMissesOwner(s);
  }

  /** A fighter at x = 0 facing right hits one standing at x = 60 at the same
      height: the opponent drops to 90 health and is pushed to the right. */
  lemma HitFromTheLeft(a: PlayerState, o: PlayerState)
    requires a == Initial(0, 400, 400) && o == Initial(60, 400, 400)
    ensures SwordHits(a, o)
    ensures Attack(a, o).1.health == 90 && Attack(a, o).1.knockbackDirection == 1
  {
  }

  predicate InSword(a: PlayerState, px: int, py: int)
  {
    SwordX(a) <= px < SwordX(a) + SwordLength && SwordY(a) <= py < SwordY(a) + SwordWidth
  }

  predicate InBody(o: PlayerState, px: int, py: int)
  {
    o.x <= px < o.x + Width && o.y <= py < o.y + Height
  }

  /** The four comparisons of the collision test say exactly that the sword
      box and the body box share a point. */
  lemma SwordHitsIffSharedPoint(a: PlayerState, o: PlayerState)
    ensures SwordHits(a, o) <==> exists px, py :: InSword(a, px, py) && InBody(o, px, py)
  {
    if SwordHits(a, o) {
      var px := Max(SwordX(a), o.x);
      var py := Max(SwordY(a), o.y);
      assert InSword(a, px, py) && InBody(o, px, py);
    }
  }

  /** Standing on the ground with a jump pending, one normal tick lifts the
      fighter by the full impulse and gravity starts to slow it. */
  lemma JumpLiftsOff(s: PlayerState)
    requires !s.isDead && !s.isKnockedBack && s.y == s.platformY
    ensures Update(Jump(s)).y == s.platformY + JumpVelocity
    ensures Update(Jump(s)).velocityY == JumpVelocity + Gravity
  {
  }

  /** n consecutive calls of update(). */
  function Ticks(s: PlayerState, n: nat): (r: PlayerState)
    ensures Valid(s) ==> Valid(r)
    ensures r.isDead == s.isDead && r.health == s.health
    ensures r.isMovingLeft == s.isMovingLeft && r.isMovingRight == s.isMovingRight
    ensures !s.isKnockedBack ==> !r.isKnockedBack
    decreases n
  {
    if n == 0 then s else Ticks(Update(s), n - 1)
  }

  /** With no direction held, the horizontal speed drops by 0.5 per tick and
      stops at zero without changing sign: from 5 it is 4.5 after one tick and
      0 from the tenth tick on. */
  lemma {:induction false} CoastingSlowsToRest(s: PlayerState, n: nat)
    requires !s.isDead && !s.isKnockedBack && !s.isMovingLeft && !s.isMovingRight
    ensures Ticks(s, n).halfVelocityX == Sign(s.halfVelocityX) * Max(0, Abs(s.halfVelocityX) - n)
    decreases n
  {
    if n > 0 {
      var t := Update(s);
      CoastingSlowsToRest(t, n - 1);
    }
  }

  /** A knockback of t ticks slides the fighter t steps in the knockback
      direction, leaves its height and velocities alone, and ends exactly
      after the t-th tick. */
  lemma {:induction false} KnockbackSlide(s: PlayerState, k: nat)
    requires !s.isDead && s.isKnockedBack && 0 < s.knockbackTime
    requires k <= s.knockbackTime
    ensures Ticks(s, k).x == s.x + k * s.knockbackDirection * KnockbackStep
    ensures Ticks(s, k).knockbackTime == s.knockbackTime - k
    ensures Ticks(s, k).isKnockedBack <==> k < s.knockbackTime
    ensures Ticks(s, k).y == s.y && Ticks(s, k).velocityY == s.velocityY
    ensures Ticks(s, k).halfVelocityX == s.halfVelocityX
    decreases k
  {
    if k > 0 {
      var t := Update(s);
      if k > 1 {
        KnockbackSlide(t, k - 1);
      }
    }
  }
}
