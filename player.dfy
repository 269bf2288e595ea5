/** The fighter object of the game: its fields are updated in place by the
    per-frame operations, each public one proved to act as the rule of the
    same name in module PlayerRules (the three parts of Update as
    KnockbackTick, Fall and Walk). */
module GameTestBUTO {
  import opened PlayerRules

  class Player {
    var x: int
    var y: int
    var health: int
    var isJumping: bool
    var isAttacking: bool
    var isBlocking: bool
    var isKnockedBack: bool
    var knockbackDirection: int
    var knockbackTime: int
    var velocityY: int
    var isMovingLeft: bool
    var isMovingRight: bool
    // velocityX, exactly, in half-units
    var halfVelocityX: int
    var isDead: bool
    var lastDirection: Facing
    // fixed at construction
    const respawnX: int
    const respawnY: int
    // the surface height of the platform the fighter stands on
    const platformY: int

    /** The fields as one value. */
    function State(): PlayerState
      reads this
    {
      PlayerState(x, y, health, isJumping, isAttacking, isBlocking, isKnockedBack,
                  knockbackDirection, knockbackTime, velocityY, isMovingLeft, isMovingRight,
                  halfVelocityX, isDead, lastDirection, respawnX, respawnY, platformY)
    }

    predicate Valid()
      reads this
    {
      PlayerRules.Valid(State())
    }

    constructor (x0: int, y0: int, platformY0: int)
      ensures State() == Initial(x0, y0, platformY0)
      ensures Valid()
    {
      x, y := x0, y0;
      health := MaxHealth;
      isJumping, isAttacking, isBlocking := false, false, false;
      isKnockedBack, knockbackDirection, knockbackTime := false, 0, 0;
      velocityY := 0;
      isMovingLeft, isMovingRight := false, false;
      halfVelocityX := 0;
      isDead := false;
      lastDirection := Right;
      respawnX, respawnY := x0, y0;
      platformY := platformY0;
    }

    method Update()
      modifies this
      ensures State() == PlayerRules.Update(old(State()))
      ensures old(Valid()) ==> Valid()
    {
      if isDead {
        return;
      }
      if isKnockedBack {
        SlideBack();
      } else {
        ApplyGravity();
        ApplyMovement();
      }
    }

    /** The knockback branch of update(). */
    method SlideBack()
      modifies this
      ensures State() == KnockbackTick(old(State()))
    {
      x := x + knockbackDirection * KnockbackStep;
      knockbackTime := knockbackTime - 1;
      if knockbackTime <= 0 {
        isKnockedBack := false;
      }
    }

    /** The jump and gravity part of update(). */
    method ApplyGravity()
      modifies this
      ensures State() == Fall(old(State()))
    {
      if isJumping {
        velocityY := JumpVelocity;
        isJumping := false;
      }
      y := y + velocityY;
      velocityY := velocityY + Gravity;
      if y >= platformY {
        y := platformY;
        velocityY := 0;
      }
    }

    /** The horizontal part of update(). */
    method ApplyMovement()
      modifies this
      ensures State() == Walk(old(State()))
    {
      if isMovingLeft {
        halfVelocityX := Max(halfVelocityX - 1, -MaxHalfSpeed);
        lastDirection := Left;
      } else if isMovingRight {
        halfVelocityX := Min(halfVelocityX + 1, MaxHalfSpeed);
        lastDirection := Right;
      } else {
        halfVelocityX := Sign(halfVelocityX) * Max(0, Abs(halfVelocityX) - 1);
      }
      x := IntOfHalves(2 * x + halfVelocityX);
    }

    /** attack(opponent). The opponent may be this very fighter: its own sword
        never reaches its body, so then only the sword is raised. */
    method Attack(opponent: Player)
      modifies this, opponent
      ensures opponent != this ==>
        (State(), opponent.State()) == PlayerRules.Attack(old(State()), old(opponent.State()))
      ensures opponent == this ==> State() == PlayerRules.Attack(old(State()), old(State())).0
      ensures old(Valid()) && old(opponent.Valid()) ==> Valid() && opponent.Valid()
    {
      if isDead {
        return;
      }
      isAttacking := true;
      if SwordHits(State(), opponent.State()) && !opponent.isBlocking {
        opponent.TakeDamage(AttackDamage);
        opponent.knockbackDirection := if x < opponent.x then 1 else -1;
        opponent.isKnockedBack := true;
        opponent.knockbackTime := KnockbackTicks;
      }
    }

    method Block()
      modifies this
      ensures State() == PlayerRules.Block(old(State()))
    {
      if isDead {
        return;
      }
      isBlocking := true;
    }

    method MoveLeft()
      modifies this
      ensures State() == PlayerRules.MoveLeft(old(State()))
    {
      if !isDead && !isKnockedBack {
        isMovingLeft := true;
        isMovingRight := false;
      }
    }

    method MoveRight()
      modifies this
      ensures State() == PlayerRules.MoveRight(old(State()))
    {
      if !isDead && !isKnockedBack {
        isMovingRight := true;
        isMovingLeft := false;
      }
    }

    method Jump()
      modifies this
      ensures State() == PlayerRules.Jump(old(State()))
    {
      if y == platformY && !isDead {
        isJumping := true;
      }
    }

    method Stop()
      modifies this
      ensures State() == PlayerRules.Stop(old(State()))
    {
      if isDead {
        return;
      }
      isAttacking := false;
      isBlocking := false;
      isMovingLeft := false;
      isMovingRight := false;
    }

    method TakeDamage(damage: int)
      modifies this
      ensures State() == PlayerRules.TakeDamage(old(State()), damage)
      ensures old(Valid()) && damage >= 0 ==> Valid()
    {
      health := health - damage;
      if health <= 0 {
        health := 0;
        Die();
      }
    }

    method Die()
      modifies this
      ensures State() == PlayerRules.Die(old(State()))
    {
      isDead := true;
    }

    method Respawn()
      modifies this
      ensures State() == PlayerRules.Respawn(old(State()))
      ensures old(Valid()) ==> Valid()
    {
      ghost var before := State();
      x, y := respawnX, respawnY;
      health := MaxHealth;
      isDead := false;
      isJumping, isAttacking, isBlocking := false, false, false;
      velocityY, halfVelocityX := 0, 0;
      lastDirection := Right;
      assert State() == PlayerRules.Respawn(before);
    }

    /** getHealth() */
    function GetHealth(): (h: int)
      reads this
      ensures Valid() ==> 0 <= h <= MaxHealth
      ensures Valid() ==> (h == 0 <==> isDead)
    {
      health
    }

    /** isDead() */
    function IsDead(): (d: bool)
      reads this
      ensures Valid() ==> (d <==> health == 0)
    {
      isDead
    }
  }
}
