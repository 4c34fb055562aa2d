/** The game loop of main.js as it runs: two player records and the `world`
    record, updated in place. Every method is proved to leave the state that
    the matching function of module Combat computes. */
module Engine {
  import opened Combat

  /** An entry of the `players` array. `hasModel` stands for `p.model` being
      set; the mixer, the key bindings and the z coordinate are left out. */
  class Player {
    const id: Side
    var hasModel: bool
    var state: ActionState
    var pos: Vec
    var vel: Vec
    var facing: int
    var hp: int

    /** The record's current value. */
    function Snapshot(): Fighter
      reads this
    {
      Fighter(hasModel, state, pos, vel, facing, hp)
    }

    /** A player as declared at the top of main.js, before any model loads. */
    constructor (side: Side)
      ensures id == side && Snapshot() == StartFighter(side, false)
    {
      id := side;
      hasModel := false;
      state := IdleState();
      pos := Vec(if side == P1 then -StartX else StartX, 0.0);
      vel := Vec(0.0, 0.0);
      facing := if side == P1 then 1 else -1;
      hp := FullHp;
    }

    /** The body of the per-player loop of `simulate`. */
    method Update(inp: Input, dt: real)
      modifies this
      ensures Snapshot() == UpdateFighter(old(Snapshot()), inp, dt)
    {
      var onGround := pos.y <= GroundY + GroundTolerance;

      var dir := 0;
      if inp.left { dir := dir - 1; }
      if inp.right { dir := dir + 1; }
      vel := vel.(x := dir as real * Speed);
      if dir != 0 { facing := dir; }

      if inp.jump && onGround {
        vel := vel.(y := JumpSpeed);
      }

      vel := vel.(y := vel.y + Gravity * dt);

      pos := Vec(pos.x + vel.x * dt, pos.y + vel.y * dt);

      if pos.y < GroundY {
        pos := pos.(y := GroundY);
        vel := vel.(y := 0.0);
      }

      pos := pos.(x := Clamp(pos.x, -ArenaHalf, ArenaHalf));

      if state.cooldown > 0.0 {
        state := state.(cooldown := Max(0.0, state.cooldown - dt));
      }

      if inp.attack && state.cooldown == 0.0 {
        state := AttackState();
        state := state.(since := 0.0);
      }
    }

    /** The body of the reset loop of `startMatch`: every field but the model. */
    method Reset()
      modifies this
      ensures Snapshot() == StartFighter(id, old(hasModel))
    {
      pos := Vec(if id == P1 then -StartX else StartX, 0.0);
      vel := Vec(0.0, 0.0);
      facing := if id == P1 then 1 else -1;
      hp := FullHp;
      state := IdleState();
    }

    /** What `loadCharacter` leaves in the record once the load has settled;
        `loaded` says whether it produced a model. */
    method LoadCharacter(loaded: bool)
      modifies this
      ensures Snapshot() == old(Snapshot()).(hasModel := loaded, state := IdleState())
    {
      hasModel := false;
      state := IdleState();
      if loaded {
        hasModel := true;
      }
    }
  }

  /** The `world` record and the `players` array. */
  class Game {
    const players: seq<Player>
    var started: bool
    var timeLeft: real
    var lastTick: real

    ghost predicate Valid()
      reads this, players
    {
      |players| == 2 && players[0].id == P1 && players[1].id == P2
    }

    /** The state the combat rules speak about. */
    function State(): World
      reads this, players
      requires Valid()
    {
      World(started, timeLeft, players[0].Snapshot(), players[1].Snapshot())
    }

    /** The page as it loads: no match running, 60 seconds on the timer. */
    constructor (now: real)
      ensures Valid() && fresh(players[0]) && fresh(players[1])
      ensures State() == Initial() && lastTick == now
    {
      var p1 := new Player(P1);
      var p2 := new Player(P2);
      players := [p1, p2];
      started := false;
      timeLeft := MatchTime;
      lastTick := now;
    }

    /** The KO check of `updateHPBars`; the bar widths are not modelled. */
    method UpdateHPBars()
      requires Valid()
      modifies this
      ensures Valid() && lastTick == old(lastTick) && timeLeft == old(timeLeft)
      ensures started == KoCheck(players[0].hp, players[1].hp, old(started))
    {
      if players[0].hp <= 0 || players[1].hp <= 0 {
        started := false;
      }
    }

    /** `resolveHits(attacker, defender)` for the two distinct players. */
    method ResolveHits(attacker: Player, defender: Player)
      requires Valid() && attacker in players && defender in players && attacker != defender
      modifies this, attacker, defender
      ensures Valid() && lastTick == old(lastTick) && timeLeft == old(timeLeft)
      ensures var x := Combat.ResolveHits(old(attacker.Snapshot()), old(defender.Snapshot()), old(started));
              attacker.Snapshot() == x.att && defender.Snapshot() == x.def && started == x.started
    {
      if !attacker.hasModel || !defender.hasModel { return; }
      if attacker.state.name != Attack { return; }

      attacker.state := attacker.state.(since := attacker.state.since + SinceStep);
      var active := attacker.state.since > ActiveFrom && attacker.state.since < ActiveUntil;
      if !active || !attacker.state.canHit { return; }

      var dir := if attacker.facing >= 0 then 1 else -1;
      var hitCenterX := attacker.pos.x + dir as real * Reach;
      var dx := Abs(defender.pos.x - hitCenterX);
      var dy := Abs(defender.pos.y - attacker.pos.y);
      if dx < HitRange && dy < HitHeight {
        defender.hp := defender.hp - Damage;
        defender.vel := defender.vel.(x := defender.vel.x + dir as real * KnockbackX);
        defender.vel := defender.vel.(y := Max(defender.vel.y, KnockbackY));
        UpdateHPBars();
        attacker.state := attacker.state.(canHit := false);
      }

      // "end attack after 0.3s": `since` is below ActiveUntil here, so the
      // reset to the idle state that main.js writes in this branch never runs.
      if attacker.state.since > AttackEnd {
        assert false;
      }
    }

    /** `simulate(dt)` with the players' keys given as `inputs`. */
    method Simulate(inputs: seq<Input>, dt: real)
      requires Valid() && |inputs| == 2
      modifies this, players
      ensures Valid() && lastTick == old(lastTick)
      ensures State() == Tick(old(State()), Frame(inputs[0], inputs[1], dt))
    {
      if !started { return; }

      timeLeft := timeLeft - dt;
      if timeLeft <= 0.0 {
        timeLeft := 0.0;
        started := false;
      }

      ghost var timed := (started, timeLeft);
      var i := 0;
      while i < |players|
        invariant 0 <= i <= 2
        invariant (started, timeLeft) == timed && lastTick == old(lastTick)
        invariant forall k :: 0 <= k < i ==> players[k].Snapshot() == UpdateFighter(old(players[k].Snapshot()), inputs[k], dt)
        invariant forall k :: i <= k < 2 ==> players[k].Snapshot() == old(players[k].Snapshot())
      {
        players[i].Update(inputs[i], dt);
        i := i + 1;
      }

      ResolveHits(players[0], players[1]);
      ResolveHits(players[1], players[0]);
    }

    /** One `animate` frame at clock reading `now`, without the rendering. */
    method Animate(now: real, inputs: seq<Input>)
      requires Valid() && |inputs| == 2
      modifies this, players
      ensures Valid() && lastTick == now
      ensures State() == Tick(old(State()), Frame(inputs[0], inputs[1], FrameDelta(now, old(lastTick))))
    {
      var dt := Min(MaxStep, (now - lastTick) / 1000.0);
      lastTick := now;
      Simulate(inputs, dt);
    }

    /** `startMatch` once both character loads have settled: `loaded1` and
        `loaded2` say which of them produced a model. */
    method StartMatch(loaded1: bool, loaded2: bool)
      requires Valid()
      modifies this, players
      ensures Valid() && lastTick == old(lastTick)
      ensures State() == MatchStart(loaded1, loaded2)
    {
      started := false;
      timeLeft := MatchTime;
      var i := 0;
      while i < |players|
        invariant 0 <= i <= 2
        invariant !started && timeLeft == MatchTime && lastTick == old(lastTick)
        invariant forall k :: 0 <= k < i ==> players[k].Snapshot() == StartFighter(players[k].id, old(players[k].hasModel))
        invariant forall k :: i <= k < 2 ==> players[k].hasModel == old(players[k].hasModel)
      {
        players[i].Reset();
        UpdateHPBars();
        i := i + 1;
      }

      players[0].LoadCharacter(loaded1);
      players[1].LoadCharacter(loaded2);

      started := true;
    }
  }
}
