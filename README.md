# Fighter model of `Player.java`

This project models the `Player` class of a two-player sword-fighting game. A `Player` is a fighter. An external game loop calls it once per tick to move (`update`), take input (`moveLeft`, `moveRight`, `jump`, `block`, `stop`) and fight (`attack`, `takeDamage`, `respawn`).

There are three modules:

- `PlayerRules` (`player_rules.dfy`) is the specification. It defines the value `PlayerState`, with every mutable field of the fighter plus its three fixed values: the respawn anchor and the surface height of the platform. Each public operation is one pure function, with a contract saying what it does. The object invariant `Valid` is kept by every public operation, and by `takeDamage` only when the damage is non-negative: `PlayerRules.NegativeDamageBreaksValid` shows that a negative damage breaks it. The private `die` is only called once health is 0. The lemmas cover several calls in a row: coasting to rest, the knockback slide, lift-off after a jump, the geometry of the sword and respawn compared with construction.
- `GameTestBUTO` (`player.dfy`) is the class `Player`. Its fields are updated in place by methods written as the Java is. Each public method is proved to leave `State()` equal to the rule of the same name applied to the old state. The three parts of `update` are proved against their own rules: `SlideBack` against `KnockbackTick`, `ApplyGravity` against `Fall`, and `ApplyMovement` against `Walk`. `Attack` changes two objects, and the opponent may be the attacker itself.
- `Matches` (`matches.dfy`) holds two fighters and any sequence of the public calls. It proves that the invariant holds after any sequence of calls. It also proves that a dead fighter stays dead and does not move until it is respawned.

Representation choices:

- `velocityX` is a `double`, but it only ever changes in steps of 0.5. It is stored exactly as `halfVelocityX`, a count of half-units (`velocityX == halfVelocityX / 2`). The top speed of 5 becomes `MaxHalfSpeed = 10`.
- `x += velocityX` is a Java compound assignment, so it stores `(int)(x + velocityX)`. The cast truncates toward zero. This is `IntOfHalves(2 * x + halfVelocityX)`. A sub-unit velocity is therefore lost in a way that depends on sign. At a positive `x`, a velocity of +0.5 does not move the fighter, but -0.5 moves it one unit.
- `lastDirection` is a string that only ever holds `"left"` or `"right"`. It is modelled as the datatype `Facing`.
- `width`, `height`, `speed`, `swordLength` and `swordWidth` are never reassigned, so they are module constants.
- The platform is fixed at construction and only its surface height is read. It is modelled as the constant field `platformY`.

A dead fighter can still be hit: `attack` (Player.java:85-89) does not check the opponent's `isDead`, so `takeDamage` runs (health stays 0) and the knockback fields are written. `Matches.DeadStaysDead` states this: on a dead fighter only health and knockback may change.

## Model

| member | source | states |
|---|---|---|
| PlayerRules.Initial | gameTest/src/gameTestBUTO/Player.java:27-39 | a new fighter satisfies the invariant, stands at its respawn anchor with health 100, alive, at rest and facing right, with no input held and no knockback |
| PlayerRules.IntOfHalves | gameTest/src/gameTestBUTO/Player.java:76 | the int cast of the half-integer n/2 is n/2 rounded toward zero (down for n >= 0, up for n < 0) |
| PlayerRules.KnockbackTick | gameTest/src/gameTestBUTO/Player.java:46-51 | a knockback tick moves x by knockbackDirection * 10, counts knockbackTime down by one, clears isKnockedBack exactly when no time remains, and changes nothing else |
| PlayerRules.Fall | gameTest/src/gameTestBUTO/Player.java:53-63 | a pending jump is consumed, y becomes min(y + launch velocity, platformY), and velocityY is the launch velocity + 1 in the air or 0 on landing; nothing else changes |
| PlayerRules.NextHalfVelocityX | gameTest/src/gameTestBUTO/Player.java:66-74 | holding left or right changes the velocity by 0.5 toward -5 or +5 and never past them; with nothing held, the speed drops by 0.5 toward 0 and the sign never flips; a speed of at most 5 stays at most 5 |
| PlayerRules.Walk | gameTest/src/gameTestBUTO/Player.java:65-76 | the velocity follows NextHalfVelocityX, facing follows the held direction or stays put, x becomes x + velocityX truncated toward zero (within half a unit of the exact sum), and nothing else changes |
| PlayerRules.Update | gameTest/src/gameTestBUTO/Player.java:41-78 | a dead fighter is unchanged; a knocked-back fighter takes only a knockback tick, with y and both velocities untouched; otherwise the tick is gravity (`Fall`) followed by horizontal movement (`Walk`), y ends at or above the platform and knockback stays off; health, life, attack/block/move flags and the anchors never change; the invariant is kept |
| PlayerRules.SwordHits | gameTest/src/gameTestBUTO/Player.java:126-136 | the sword box can only reach a body at a different x, so it never reaches its owner |
| PlayerRules.Hit | gameTest/src/gameTestBUTO/Player.java:86-89 | a landed blow takes 10 health (floored at 0), kills exactly when health was at most 10 or already dead, sets the knockback direction, isKnockedBack and knockbackTime 10, and changes nothing else |
| PlayerRules.Attack | gameTest/src/gameTestBUTO/Player.java:80-91 | a dead attacker changes nothing; a living one ends with isAttacking set and nothing else changed; the opponent changes only when the sword reaches it and it is not blocking, and then it is hit away from the attacker's side; the invariant is kept on both |
| PlayerRules.Block | gameTest/src/gameTestBUTO/Player.java:93-96 | a living fighter ends blocking, a dead one is unchanged, no other field changes |
| PlayerRules.MoveLeft | gameTest/src/gameTestBUTO/Player.java:98-103 | no effect while dead or knocked back; otherwise left is held and right released; no other field changes |
| PlayerRules.MoveRight | gameTest/src/gameTestBUTO/Player.java:105-110 | no effect while dead or knocked back; otherwise right is held and left released; no other field changes |
| PlayerRules.Jump | gameTest/src/gameTestBUTO/Player.java:112-116 | a jump is pending afterwards exactly when one was already pending or the fighter is alive and exactly on the platform; an airborne or dead fighter is unchanged (no double jump) |
| PlayerRules.Stop | gameTest/src/gameTestBUTO/Player.java:118-124 | a living fighter ends with attack, block and both directions cleared; knockback and a pending jump are untouched; a dead one is unchanged |
| PlayerRules.Die | gameTest/src/gameTestBUTO/Player.java:146-148 | the fighter is dead afterwards and nothing else changes |
| PlayerRules.TakeDamage | gameTest/src/gameTestBUTO/Player.java:138-144 | health becomes max(0, health - damage); the fighter is dead afterwards exactly when it was dead or health reached 0; only health and isDead change; with non-negative damage the invariant is kept |
| PlayerRules.Respawn | gameTest/src/gameTestBUTO/Player.java:150-162 | the fighter is back at its anchor with health 100, alive, at rest, facing right, with jump, attack and block cleared; held directions, knockback and anchors are unchanged; the invariant is kept |
| PlayerRules.RespawnIsInitialButForInputAndKnockback | gameTest/src/gameTestBUTO/Player.java:150-162 | a respawned fighter equals a freshly constructed one at the same anchor, except for the held directions and the knockback fields |
| PlayerRules.NegativeDamageBreaksValid | gameTest/src/gameTestBUTO/Player.java:138-144 | damage is not checked: a negative damage on a full-health fighter raises health above 100, and on a dead fighter gives it health while it stays dead; either way the invariant no longer holds |
| PlayerRules.SwordMissesOwner | gameTest/src/gameTestBUTO/Player.java:128-135 | a fighter's sword box never overlaps its own body |
| PlayerRules.SelfAttackOnlyRaisesSword | gameTest/src/gameTestBUTO/Player.java:80-91 | attacking oneself only sets isAttacking (and does nothing when dead) |
| PlayerRules.HitFromTheLeft | gameTest/src/gameTestBUTO/Player.java:80-91 | a fighter at x = 0 facing right hits one at x = 60 at the same height, leaving it with 90 health and knockback direction +1 |
| PlayerRules.SwordHitsIffSharedPoint | gameTest/src/gameTestBUTO/Player.java:128-135 | the four comparisons hold exactly when the 50x10 sword box and the 50x100 body box share a point |
| PlayerRules.JumpLiftsOff | gameTest/src/gameTestBUTO/Player.java:54-59 | jumping from the platform and then ticking once puts the fighter 15 above the platform with velocityY -14 |
| PlayerRules.Ticks | gameTest/src/gameTestBUTO/Player.java:41-78 | any number of updates keeps the invariant, life, health and held directions, and never starts a knockback |
| PlayerRules.CoastingSlowsToRest | gameTest/src/gameTestBUTO/Player.java:72-75 | with no direction held and no knockback, after n ticks velocityX is sign(v) * max(0, abs(v) - n/2): from 5 it is 4.5 after one tick and 0 from the tenth tick on |
| PlayerRules.KnockbackSlide | gameTest/src/gameTestBUTO/Player.java:46-51 | k ticks into a knockback of t ticks (k <= t), the fighter has slid k steps of 10, has t - k ticks left, keeps its height and velocities, and is free exactly when k = t |
| GameTestBUTO.Player.constructor | gameTest/src/gameTestBUTO/Player.java:27-39 | the fields equal PlayerRules.Initial of the arguments, so the invariant holds |
| GameTestBUTO.Player.Update | gameTest/src/gameTestBUTO/Player.java:41-78 | the new fields equal PlayerRules.Update of the old ones; the invariant is kept |
| GameTestBUTO.Player.SlideBack | gameTest/src/gameTestBUTO/Player.java:46-51 | the new fields equal PlayerRules.KnockbackTick of the old ones |
| GameTestBUTO.Player.ApplyGravity | gameTest/src/gameTestBUTO/Player.java:53-63 | the new fields equal PlayerRules.Fall of the old ones |
| GameTestBUTO.Player.ApplyMovement | gameTest/src/gameTestBUTO/Player.java:65-76 | the new fields equal PlayerRules.Walk of the old ones |
| GameTestBUTO.Player.Attack | gameTest/src/gameTestBUTO/Player.java:80-91 | for a distinct opponent both objects end as PlayerRules.Attack says; when the opponent is the attacker itself only the attacker's rule applies (its sword is raised); the invariant is kept on both |
| GameTestBUTO.Player.Block | gameTest/src/gameTestBUTO/Player.java:93-96 | the new fields equal PlayerRules.Block of the old ones |
| GameTestBUTO.Player.MoveLeft | gameTest/src/gameTestBUTO/Player.java:98-103 | the new fields equal PlayerRules.MoveLeft of the old ones |
| GameTestBUTO.Player.MoveRight | gameTest/src/gameTestBUTO/Player.java:105-110 | the new fields equal PlayerRules.MoveRight of the old ones |
| GameTestBUTO.Player.Jump | gameTest/src/gameTestBUTO/Player.java:112-116 | the new fields equal PlayerRules.Jump of the old ones |
| GameTestBUTO.Player.Stop | gameTest/src/gameTestBUTO/Player.java:118-124 | the new fields equal PlayerRules.Stop of the old ones |
| GameTestBUTO.Player.TakeDamage | gameTest/src/gameTestBUTO/Player.java:138-144 | the new fields equal PlayerRules.TakeDamage of the old ones; with non-negative damage the invariant is kept |
| GameTestBUTO.Player.Die | gameTest/src/gameTestBUTO/Player.java:146-148 | the new fields equal PlayerRules.Die of the old ones |
| GameTestBUTO.Player.Respawn | gameTest/src/gameTestBUTO/Player.java:150-162 | the new fields equal PlayerRules.Respawn of the old ones; the invariant is kept |
| GameTestBUTO.Player.GetHealth | gameTest/src/gameTestBUTO/Player.java:205-207 | under the invariant the health returned is within [0, 100] and is 0 exactly when the fighter is dead |
| GameTestBUTO.Player.IsDead | gameTest/src/gameTestBUTO/Player.java:201-203 | under the invariant the fighter reports dead exactly when its health is 0 |
| Matches.Apply | gameTest/src/gameTestBUTO/Player.java:41-162 | any single public call keeps the invariant on both fighters, and only an attack touches the fighter it was not called on |
| Matches.RunKeepsValid | gameTest/src/gameTestBUTO/Player.java:138-144 | after any sequence of calls (with non-negative damage), both fighters have health in [0, 100], are dead exactly at 0 health, and keep speed and knockback in range |
| Matches.DeadStaysDead | gameTest/src/gameTestBUTO/Player.java:41-124 | without a respawn, a dead fighter stays dead through any sequence of calls, and nothing about it changes except its health and knockback fields |

## Left out

- `render(Graphics)`: drawing on a `java.awt.Graphics` surface, using a floating-point health-bar width. It changes no state.
- `getX()` and `getY()`: Dafny fields are readable, so callers read `x` and `y` directly.
- `isPlayerOne` and `isInAttackRange`: stored, but no logic reads them.
- The `Platform` class is not part of this model. Only its surface height is used, as the constant `platformY`.
- Java `int` overflow: `x`, `y`, `velocityY`, `health` and `knockbackTime` are unbounded integers. A game that runs long enough for them to wrap is not covered.
- PlayerRules.IntOfHalves: does not model the cast saturating at the `int` range, or `double` rounding of `x + velocityX` once `|x|` is beyond 2^52. Within that range, the sum of an int and a multiple of 0.5 is exact.
- `attack(null)`: in Java it sets `isAttacking` (Player.java:82) and then throws a NullPointerException when it reads `opponent.x` (Player.java:132). The opponent of `GameTestBUTO.Player.Attack` is a non-null `Player`, so this case is not modelled.
- `Math.signum` returning a negative zero: it cannot change `x`, so it is not represented.
- The game loop, input polling and the order in which the driver calls the methods. `Matches` instead covers every order of calls. It assumes one platform per fighter and non-negative damage in `TakeDamage` events. The class itself accepts any damage.
