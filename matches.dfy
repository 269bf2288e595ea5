/** Two fighters driven by an arbitrary sequence of the public calls a game
    loop can make on them. The loop itself is not modelled; the lemmas here
    hold for every order of calls. */
module Matches {
  import opened PlayerRules

  datatype Side = One | Two

  /** One public call on one fighter. Attack(side) is that fighter attacking
      the other one; TakeDamage carries a non-negative amount. */
  datatype Event =
    | Tick(side: Side)
    | MoveLeft(side: Side)
    | MoveRight(side: Side)
    | Jump(side: Side)
    | Block(side: Side)
    | Stop(side: Side)
    | Attack(side: Side)
    | TakeDamage(side: Side, amount: nat)
    | Respawn(side: Side)

  datatype Match = Match(one: PlayerState, two: PlayerState)
  {
    function Of(side: Side): PlayerState
    {
      if side == One then one else two
    }

    function With(side: Side, s: PlayerState): Match
    {
      if side == One then this.(one := s) else this.(two := s)
    }
  }

  function Other(side: Side): Side
  {
    if side == One then Two else One
  }

  /** The effect of one call. */
  function Apply(m: Match, e: Event): (r: Match)
    ensures Valid(m.one) && Valid(m.two) ==> Valid(r.one) && Valid(r.two)
    ensures !e.Attack? ==> r.Of(Other(e.side)) == m.Of(Other(e.side))
  {
    var s := m.Of(e.side);
    match e
    case Tick(side) => m.With(side, Update(s))
    case MoveLeft(side) => m.With(side, PlayerRules.MoveLeft(s))
    case MoveRight(side) => m.With(side, PlayerRules.MoveRight(s))
    case Jump(side) => m.With(side, PlayerRules.Jump(s))
    case Block(side) => m.With(side, PlayerRules.Block(s))
    case Stop(side) => m.With(side, PlayerRules.Stop(s))
    case TakeDamage(side, amount) => m.With(side, PlayerRules.TakeDamage(s, amount))
    case Respawn(side) => m.With(side, PlayerRules.Respawn(s))
    case Attack(side) =>
      var (a, o) := PlayerRules.Attack(s, m.Of(Other(side)));
      m.With(side, a).With(Other(side), o)
  }

  /** The effect of a sequence of calls, first to last. */
  function Run(m: Match, es: seq<Event>): Match
    decreases |es|
  {
    if es == [] then m else Run(Apply(m, es[0]), es[1..])
  }

  /** Whatever the calls, both fighters keep health in [0, 100], are dead
      exactly at zero health, and keep their speed and knockback in range. */
  lemma {:induction false} RunKeepsValid(m: Match, es: seq<Event>)
    requires Valid(m.one) && Valid(m.two)
    ensures Valid(Run(m, es).one) && Valid(Run(m, es).two)
    decreases |es|
  {
    if es != [] {
      RunKeepsValid(Apply(m, es[0]), es[1..]);
    }
  }

  /** A dead fighter's state, apart from what a blow on it writes (health and
      knockback): the parts nothing but respawn may change. */
  function Frozen(s: PlayerState): PlayerState
  {
    s.(health := 0, isKnockedBack := false, knockbackDirection := 0, knockbackTime := 0)
  }

  /** Until it is respawned, a dead fighter stays dead and nothing about it
      changes but its health and knockback: it does not move, turn, jump,
      block, attack or get up. */
  lemma {:induction false} DeadStaysDead(m: Match, es: seq<Event>, side: Side)
    requires m.Of(side).isDead
    requires forall i :: 0 <= i < |es| ==> es[i] != Respawn(side)
    ensures Run(m, es).Of(side).isDead
    ensures Frozen(Run(m, es).Of(side)) == Frozen(m.Of(side))
    decreases |es|
  {
    if es != [] {
      var m' := Apply(m, es[0]);
      assert m'.Of(side).isDead && Frozen(m'.Of(side)) == Frozen(m.Of(side)) by {
        match es[0]
        case Attack(s) =>
          if s != side {
            assert m.Of(Other(s)) == m.Of(side);
          }
        case _ =>
      }
      DeadStaysDead(m', es[1..], side);
    }
  }
}
