/** The combat rules of the brawler in main.js, as functions on values.

    Each function here is the specification of one in-place update the engine
    performs (see engine.dfy): `UpdateFighter` is one pass of the per-player
    loop in `simulate`, `ResolveHits` is `resolveHits` together with the KO
    check of `updateHPBars`, `Tick` is a whole `simulate(dt)`, `MatchStart` is
    the state `startMatch` leaves behind. Numbers are `real`: the model does
    not reproduce IEEE-754 rounding. */
module Combat {

  // ----- constants of main.js -----

  const Gravity: real := -60.0
  const GroundY: real := 0.0
  const ArenaHalf: real := 10.0
  const Speed: real := 7.0
  const JumpSpeed: real := 16.0
  /** A player counts as grounded up to this height above the floor. */
  const GroundTolerance: real := 0.001
  const AttackCooldown: real := 0.35
  /** The fixed amount `since` grows per `resolveHits` call, whatever `dt` is. */
  const SinceStep: real := 0.016
  const ActiveFrom: real := 0.05
  const ActiveUntil: real := 0.20
  /** Intended end of an attack; the check that uses it can never fire. */
  const AttackEnd: real := 0.30
  /** The hit centre lies this far in front of the attacker. */
  const Reach: real := 1.0
  const HitRange: real := 1.6
  const HitHeight: real := 1.5
  const Damage: int := 10
  const KnockbackX: real := 6.0
  const KnockbackY: real := 6.0
  const MaxStep: real := 0.033
  const MatchTime: real := 60.0
  const FullHp: int := 100
  const StartX: real := 4.0

  // ----- data -----

  datatype Name = Idle | Attack

  /** The `state` record of a player: its name, the time since an attack began
      (counted in `resolveHits` calls), whether that attack may still land, and
      the cooldown before the next one. */
  datatype ActionState = ActionState(name: Name, since: real, canHit: bool, cooldown: real)

  /** The x/y part of a `THREE.Vector3`; z stays 0 throughout the game. */
  datatype Vec = Vec(x: real, y: real)

  /** One entry of the `players` array. `hasModel` says whether a character
      model is loaded: `resolveHits` does nothing without one. */
  datatype Fighter = Fighter(hasModel: bool, state: ActionState, pos: Vec, vel: Vec, facing: int, hp: int)

  /** The key flags a player holds during a tick. */
  datatype Input = Input(left: bool, right: bool, jump: bool, attack: bool)

  /** The `world` record (without the clock) together with both players. */
  datatype World = World(started: bool, timeLeft: real, p1: Fighter, p2: Fighter)

  /** What one `simulate` call is given: both players' keys and the step. */
  datatype Frame = Frame(in1: Input, in2: Input, dt: real)

  /** Attacker, defender and `world.started` after one `resolveHits` call. */
  datatype Exchange = Exchange(att: Fighter, def: Fighter, started: bool)

  datatype Side = P1 | P2

  // ----- helpers of main.js -----

  function Max(a: real, b: real): real { if a >= b then a else b }
  function Min(a: real, b: real): real { if a <= b then a else b }
  function Abs(a: real): real { if a >= 0.0 then a else -a }

  /** `clamp(v, a, b)`, that is `Math.max(a, Math.min(b, v))`. */
  function Clamp(v: real, a: real, b: real): (r: real)
    ensures a <= r
    ensures a <= b ==> r <= b
    ensures a <= v <= b ==> r == v
    ensures v < a ==> r == a
    ensures a <= b < v ==> r == b
    ensures b < a ==> r == a
  {
    Max(a, Min(b, v))
  }

  /** The step `animate` hands to `simulate`: the elapsed milliseconds since the
      last frame, in seconds, capped at 0.033. Nothing stops it from being
      negative when the clock reads an earlier time than the last frame. */
  function FrameDelta(now: real, lastTick: real): (dt: real)
    ensures dt <= MaxStep
    ensures dt == MaxStep || dt == (now - lastTick) / 1000.0
    ensures (now - lastTick) / 1000.0 <= MaxStep ==> dt == (now - lastTick) / 1000.0
    ensures now >= lastTick ==> dt >= 0.0
    ensures now < lastTick ==> dt < 0.0
  {
    Min(MaxStep, (now - lastTick) / 1000.0)
  }

  function IdleState(): ActionState { ActionState(Idle, 0.0, true, 0.0) }

  function AttackState(): ActionState { ActionState(Attack, 0.0, true, AttackCooldown) }

  // ----- one player's update in `simulate` -----

  /** -1, 0 or 1 from the left/right flags; both held cancel out. */
  function Direction(inp: Input): int
  {
    (if inp.left then -1 else 0) + (if inp.right then 1 else 0)
  }

  /** The cooldown after the decay step of one tick. */
  function Cooled(c: real, dt: real): (r: real)
    ensures c >= 0.0 && dt >= 0.0 ==> r == c - Min(dt, c) && 0.0 <= r <= c
  {
    if c > 0.0 then Max(0.0, c - dt) else c
  }

  /** A new attack starts when the attack key is held and the decayed cooldown
      is exactly 0. */
  predicate Activates(f: Fighter, inp: Input, dt: real)
  {
    inp.attack && Cooled(f.state.cooldown, dt) == 0.0
  }

  /** The velocity after input, jump and gravity, before integration. */
  function Launch(f: Fighter, inp: Input, dt: real): Vec
  {
    var onGround := f.pos.y <= GroundY + GroundTolerance;
    var vy := if inp.jump && onGround then JumpSpeed else f.vel.y;
    Vec(Direction(inp) as real * Speed, vy + Gravity * dt)
  }

  /** One pass of the `for (const p of players)` loop of `simulate`: horizontal
      speed and facing from the keys, a jump when grounded, gravity, explicit
      Euler integration, the floor snap, the arena clamp, the cooldown decay
      and the start of a new attack. */
  function UpdateFighter(f: Fighter, inp: Input, dt: real): Fighter
  {
    var dir := Direction(inp);
    var v := Launch(f, inp, dt);
    var moved := Vec(f.pos.x + v.x * dt, f.pos.y + v.y * dt);
    var landed := moved.y < GroundY;
    var state := if f.state.cooldown > 0.0 then f.state.(cooldown := Cooled(f.state.cooldown, dt)) else f.state;
    f.(facing := if dir != 0 then dir else f.facing,
       vel := if landed then v.(y := 0.0) else v,
       pos := Vec(Clamp(moved.x, -ArenaHalf, ArenaHalf), if landed then GroundY else moved.y),
       state := if Activates(f, inp, dt) then AttackState() else state)
  }

  // ----- `resolveHits` -----

  /** 1 when facing right (or 0), -1 otherwise. */
  function FacingSign(facing: int): int { if facing >= 0 then 1 else -1 }

  predicate InWindow(since: real) { ActiveFrom < since < ActiveUntil }

  /** The defender stands inside the box around the point in front of the
      attacker. */
  predicate InReach(att: Fighter, def: Fighter)
  {
    Abs(def.pos.x - (att.pos.x + FacingSign(att.facing) as real * Reach)) < HitRange
    && Abs(def.pos.y - att.pos.y) < HitHeight
  }

  /** The defender after taking a hit from an attacker facing `dir`. */
  function Struck(def: Fighter, dir: int): Fighter
  {
    def.(hp := def.hp - Damage,
         vel := Vec(def.vel.x + dir as real * KnockbackX, Max(def.vel.y, KnockbackY)))
  }

  /** The KO check of `updateHPBars`: the match stops once either hp is 0 or less. */
  function KoCheck(hp1: int, hp2: int, started: bool): bool
  {
    if hp1 <= 0 || hp2 <= 0 then false else started
  }

  /** `resolveHits(attacker, defender)`, including the KO check it runs after
      a hit and the "end attack after 0.3s" branch exactly as written. */
  function ResolveHits(att: Fighter, def: Fighter, started: bool): Exchange
  {
    if !att.hasModel || !def.hasModel || att.state.name != Attack then
      Exchange(att, def, started)
    else
      var a := att.(state := att.state.(since := att.state.since + SinceStep));
      if !InWindow(a.state.since) || !a.state.canHit then
        Exchange(a, def, started)
      else
        var x :=
          if InReach(a, def) then
            var d := Struck(def, FacingSign(a.facing));
            Exchange(a.(state := a.state.(canHit := false)), d, KoCheck(a.hp, d.hp, started))
          else
            Exchange(a, def, started);
        if x.att.state.since > AttackEnd then x.(att := x.att.(state := IdleState())) else x
  }

  /** Whether this `resolveHits` call lands a hit. */
  predicate Lands(att: Fighter, def: Fighter)
  {
    att.hasModel && def.hasModel && att.state.name == Attack && att.state.canHit
    && InWindow(att.state.since + SinceStep) && InReach(att, def)
  }

  // ----- `simulate` and `startMatch` -----

  /** `simulate(dt)`: nothing unless the match is running; otherwise the timer,
      both players' updates in array order, then the hits of P1 on P2 and of
      P2 on P1. */
  function Tick(w: World, fr: Frame): World
  {
    if !w.started then w
    else
      var t := w.timeLeft - fr.dt;
      var expired := t <= 0.0;
      var a := UpdateFighter(w.p1, fr.in1, fr.dt);
      var b := UpdateFighter(w.p2, fr.in2, fr.dt);
      var x1 := ResolveHits(a, b, !expired);
      var x2 := ResolveHits(x1.def, x1.att, x1.started);
      World(x2.started, if expired then 0.0 else t, x2.def, x2.att)
  }

  /** The frames applied one after another. */
  function Run(w: World, frames: seq<Frame>): World
    decreases |frames|
  {
    if frames == [] then w else Run(Tick(w, frames[0]), frames[1..])
  }

  /** A player as `startMatch` resets it; `loaded` says whether its character
      model finished loading. */
  function StartFighter(side: Side, loaded: bool): Fighter
  {
    Fighter(loaded, IdleState(),
            Vec(if side == P1 then -StartX else StartX, 0.0), Vec(0.0, 0.0),
            if side == P1 then 1 else -1, FullHp)
  }

  /** The world once `startMatch` has finished. */
  function MatchStart(loaded1: bool, loaded2: bool): World
  {
    World(true, MatchTime, StartFighter(P1, loaded1), StartFighter(P2, loaded2))
  }

  /** The world as the page loads it, before any match. */
  function Initial(): World
  {
    World(false, MatchTime, StartFighter(P1, false), StartFighter(P2, false))
  }

  // ----- per-side views -----

  function FighterOf(w: World, side: Side): Fighter { if side == P1 then w.p1 else w.p2 }

  function InputOf(fr: Frame, side: Side): Input { if side == P1 then fr.in1 else fr.in2 }

  function Other(side: Side): Side { if side == P1 then P2 else P1 }

  /** `side` starts a new attack in this tick of a running match. */
  predicate ActivatesIn(w: World, fr: Frame, side: Side)
  {
    w.started && Activates(FighterOf(w, side), InputOf(fr, side), fr.dt)
  }
}
