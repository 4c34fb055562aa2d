/** What the combat rules of module Combat guarantee: the bounds every tick
    keeps, the gating of jumps, attacks and hits, the timer, and what holds
    over whole sequences of ticks. */
module CombatProofs {
  import opened Combat

  // ----- the state every tick keeps -----

  /** `since` is a whole number of `resolveHits` steps. */
  predicate OnGrid(s: real)
  {
    s >= 0.0 && (s / SinceStep).Floor as real == s / SinceStep
  }

  predicate FighterInv(f: Fighter)
  {
    -ArenaHalf <= f.pos.x <= ArenaHalf && f.pos.y >= GroundY
    && (f.facing == 1 || f.facing == -1)
    && 0.0 <= f.state.cooldown <= AttackCooldown
    && 0 <= f.hp <= FullHp && f.hp % Damage == 0
    && OnGrid(f.state.since)
    && (f.state.name == Idle ==> f.state == IdleState())
  }

  /** Bounds on both players and the timer; a running match has both players
      standing and time on the clock. */
  predicate Inv(w: World)
  {
    FighterInv(w.p1) && FighterInv(w.p2) && 0.0 <= w.timeLeft <= MatchTime
    && (w.started ==> w.p1.hp > 0 && w.p2.hp > 0 && w.timeLeft > 0.0)
  }

  lemma MatchStartInv(loaded1: bool, loaded2: bool)
    ensures Inv(MatchStart(loaded1, loaded2)) && MatchStart(loaded1, loaded2).started
    ensures Inv(Initial()) && !Initial().started
  {
    assert OnGrid(0.0) by { assert (0.0 / SinceStep).Floor == 0; }
  }

  // ----- one player's update -----

  /** Position after one update: inside the arena, never below the floor; a
      landing zeroes the vertical speed; a jump is only taken from the ground. */
  lemma UpdateBounds(f: Fighter, inp: Input, dt: real)
    ensures var r := UpdateFighter(f, inp, dt);
      -ArenaHalf <= r.pos.x <= ArenaHalf && r.pos.y >= GroundY
      && (f.pos.y + Launch(f, inp, dt).y * dt < GroundY ==> r.pos.y == GroundY && r.vel.y == 0.0)
      && (f.pos.y + Launch(f, inp, dt).y * dt >= GroundY ==> r.vel.y == Launch(f, inp, dt).y)
      && (f.pos.y > GroundY + GroundTolerance ==> Launch(f, inp, dt).y == f.vel.y + Gravity * dt)
      && (inp.jump && f.pos.y <= GroundY + GroundTolerance ==> Launch(f, inp, dt).y == JumpSpeed + Gravity * dt)
  {
  }

  /** Facing follows the key when exactly one of left/right is held and is
      kept otherwise, so it stays 1 or -1. */
  lemma UpdateFacing(f: Fighter, inp: Input, dt: real)
    ensures var r := UpdateFighter(f, inp, dt);
      (inp.left && !inp.right ==> r.facing == -1)
      && (inp.right && !inp.left ==> r.facing == 1)
      && (inp.left == inp.right ==> r.facing == f.facing)
      && (f.facing == 1 || f.facing == -1 ==> r.facing == 1 || r.facing == -1)
  {
  }

  /** The horizontal speed is set from the keys alone: whatever knockback a
      hit wrote into `vel.x` is gone before the next integration. */
  lemma KnockbackLost(f: Fighter, vx: real, inp: Input, dt: real)
    ensures UpdateFighter(f.(vel := f.vel.(x := vx)), inp, dt) == UpdateFighter(f, inp, dt)
    ensures UpdateFighter(f, inp, dt).vel.x in {-Speed, 0.0, Speed}
  {
  }

  /** The cooldown drops by min(dt, cooldown); an attack starts exactly when
      the key is held and the decayed cooldown is 0, and then the state is a
      fresh attack; otherwise only the cooldown of the state changes. */
  lemma UpdateCooldown(f: Fighter, inp: Input, dt: real)
    requires f.state.cooldown >= 0.0 && dt >= 0.0
    ensures var r := UpdateFighter(f, inp, dt);
      (Activates(f, inp, dt) ==> r.state == AttackState())
      && (!Activates(f, inp, dt) ==>
            r.state == f.state.(cooldown := f.state.cooldown - Min(dt, f.state.cooldown)))
      && (Activates(f, inp, dt) <==> inp.attack && f.state.cooldown <= dt)
  {
  }

  // ----- `resolveHits` -----

  /** The outcome of one `resolveHits` call: a hit costs the defender exactly
      10 hp, pushes it along the attacker's facing and lifts it, spends the
      attack, and runs the KO check; without a hit the defender and the match
      are untouched. The attacker's position, speed, hp, cooldown and state
      name never change, and `since` grows by 0.016 exactly when both models
      exist and the attacker is attacking. */
  lemma ResolveOutcome(att: Fighter, def: Fighter, started: bool)
    ensures var x := ResolveHits(att, def, started);
      x.def.hp == (if Lands(att, def) then def.hp - Damage else def.hp)
      && (Lands(att, def) ==>
            x.def == def.(hp := def.hp - Damage,
                          vel := Vec(def.vel.x + FacingSign(att.facing) as real * KnockbackX, Max(def.vel.y, KnockbackY)))
            && !x.att.state.canHit
            && x.started == (started && att.hp > 0 && def.hp - Damage > 0))
      && (!Lands(att, def) ==> x.def == def && x.started == started && x.att.state.canHit == att.state.canHit)
      && x.att == att.(state := x.att.state)
      && x.att.state.name == att.state.name && x.att.state.cooldown == att.state.cooldown
      && x.att.state.since
         == att.state.since + (if att.hasModel && def.hasModel && att.state.name == Attack then SinceStep else 0.0)
  {
  }

  /** The branch meant to end an attack after 0.3s never fires: an attack
      state stays an attack state through any number of `resolveHits` calls. */
  lemma AttackNeverEndsByItself(att: Fighter, def: Fighter, started: bool)
    ensures ResolveHits(att, def, started).att.state.name == att.state.name
  {
  }

  /** Once spent, an attack cannot hit again: the defender and the match stay
      as they are and the attack stays spent. */
  lemma SpentAttackHarmless(att: Fighter, def: Fighter, started: bool)
    requires !att.state.canHit
    ensures var x := ResolveHits(att, def, started);
      x.def == def && x.started == started && !x.att.state.canHit
  {
  }

  /** `since` only moves while both models are loaded. */
  lemma SinceStallsWithoutModels(att: Fighter, def: Fighter, started: bool)
    requires !att.hasModel || !def.hasModel
    ensures ResolveHits(att, def, started) == Exchange(att, def, started)
  {
  }

  /** Whether the match is running makes no difference to the players:
      `resolveHits` runs the same after the match has just ended. */
  lemma ExchangeIgnoresStarted(att: Fighter, def: Fighter, s1: bool, s2: bool)
    ensures ResolveHits(att, def, s1).att == ResolveHits(att, def, s2).att
    ensures ResolveHits(att, def, s1).def == ResolveHits(att, def, s2).def
  {
  }

  /** After k steps of 0.016 the attack is active exactly for k = 4..12. */
  lemma HitWindow(k: nat)
    ensures InWindow(SinceStep * k as real) <==> 4 <= k <= 12
  {
  }

  /** A hit lands only on the 4th to the 12th `resolveHits` call of an attack:
      `since` is then 0.016·k with k in 4..12. */
  lemma HitTicks(att: Fighter, def: Fighter)
    requires OnGrid(att.state.since) && Lands(att, def)
    ensures var k := ((att.state.since + SinceStep) / SinceStep).Floor;
      4 <= k <= 12 && att.state.since + SinceStep == SinceStep * k as real
  {
    var s := att.state.since;
    OnGridStep(s);
    var k := ((s + SinceStep) / SinceStep).Floor;
    assert k >= 0;
    assert s + SinceStep == SinceStep * k as real;
    HitWindow(k);
  }

  // ----- one tick -----

  lemma FloorNext(r: real)
    ensures (r + 1.0).Floor == r.Floor + 1
  {
  }

  lemma OnGridStep(s: real)
    requires OnGrid(s)
    ensures OnGrid(s + SinceStep)
  {
    var r := s / SinceStep;
    assert (s + SinceStep) / SinceStep == r + 1.0;
    FloorNext(r);
  }

  lemma UpdateKeepsInv(f: Fighter, inp: Input, dt: real)
    requires FighterInv(f) && dt >= 0.0
    ensures FighterInv(UpdateFighter(f, inp, dt)) && UpdateFighter(f, inp, dt).hp == f.hp
    ensures UpdateFighter(f, inp, dt).hasModel == f.hasModel
  {
    UpdateBounds(f, inp, dt);
    UpdateCooldown(f, inp, dt);
    assert OnGrid(0.0) by { assert (0.0 / SinceStep).Floor == 0; }
  }

  lemma ResolveKeepsInv(att: Fighter, def: Fighter, started: bool)
    requires FighterInv(att) && FighterInv(def) && def.hp > 0
    ensures var x := ResolveHits(att, def, started);
      FighterInv(x.att) && FighterInv(x.def) && x.att.hp == att.hp
      && x.att.hasModel == att.hasModel && x.def.hasModel == def.hasModel
      && (x.started ==> started && (x.def.hp == def.hp || (x.att.hp > 0 && x.def.hp > 0)))
  {
    ResolveOutcome(att, def, started);
    if att.hasModel && def.hasModel && att.state.name == Attack {
      OnGridStep(att.state.since);
    }
  }

  /** Every tick keeps the bounds: both players inside the arena and on or
      above the floor, facing 1 or -1, cooldown within [0, 0.35], hp a
      multiple of 10 in [0, 100], and a running match with time left and both
      players above 0 hp. */
  lemma TickKeepsInv(w: World, fr: Frame)
    requires Inv(w) && fr.dt >= 0.0
    ensures Inv(Tick(w, fr))
  {
    if w.started {
      var expired := w.timeLeft - fr.dt <= 0.0;
      var a := UpdateFighter(w.p1, fr.in1, fr.dt);
      var b := UpdateFighter(w.p2, fr.in2, fr.dt);
      UpdateKeepsInv(w.p1, fr.in1, fr.dt);
      UpdateKeepsInv(w.p2, fr.in2, fr.dt);
      var x1 := ResolveHits(a, b, !expired);
      ResolveKeepsInv(a, b, !expired);
      ResolveKeepsInv(x1.def, x1.att, x1.started);
    }
  }

  /** The timer of a running match drops by `dt` and stops at 0, which ends
      the match; a stopped match does not change at all. */
  lemma TickTimer(w: World, fr: Frame)
    ensures !w.started ==> Tick(w, fr) == w
    ensures w.started ==>
      Tick(w, fr).timeLeft == (if w.timeLeft - fr.dt <= 0.0 then 0.0 else w.timeLeft - fr.dt)
      && (w.timeLeft - fr.dt <= 0.0 ==> !Tick(w, fr).started)
      && (Tick(w, fr).started ==> Tick(w, fr).timeLeft > 0.0)
  {
    if w.started {
      var expired := w.timeLeft - fr.dt <= 0.0;
      var a := UpdateFighter(w.p1, fr.in1, fr.dt);
      var b := UpdateFighter(w.p2, fr.in2, fr.dt);
      var x1 := ResolveHits(a, b, !expired);
      ResolveOutcome(a, b, !expired);
      ResolveOutcome(x1.def, x1.att, x1.started);
    }
  }

  /** The players move and fight through the tick in which the time runs
      out: their new state does not depend on the time left. */
  lemma PhysicsIgnoresTimeout(w: World, fr: Frame, t1: real, t2: real)
    requires w.started
    ensures Tick(w.(timeLeft := t1), fr).p1 == Tick(w.(timeLeft := t2), fr).p1
    ensures Tick(w.(timeLeft := t1), fr).p2 == Tick(w.(timeLeft := t2), fr).p2
  {
    var a := UpdateFighter(w.p1, fr.in1, fr.dt);
    var b := UpdateFighter(w.p2, fr.in2, fr.dt);
    var e1, e2 := t1 - fr.dt <= 0.0, t2 - fr.dt <= 0.0;
    ExchangeIgnoresStarted(a, b, !e1, !e2);
    var x1, y1 := ResolveHits(a, b, !e1), ResolveHits(a, b, !e2);
    ExchangeIgnoresStarted(x1.def, x1.att, x1.started, y1.started);
  }

  /** A player is re-armed only by a new attack: without one its attack stays
      spent, its cooldown does not grow and its state name does not change. */
  lemma TickRearmsOnlyOnActivation(w: World, fr: Frame, side: Side)
    requires Inv(w) && fr.dt >= 0.0 && !ActivatesIn(w, fr, side)
    ensures var f, g := FighterOf(w, side), FighterOf(Tick(w, fr), side);
      (g.state.canHit ==> f.state.canHit) && g.state.cooldown <= f.state.cooldown
      && g.state.name == f.state.name
  {
    if w.started {
      var f := FighterOf(w, side);
      UpdateCooldown(f, InputOf(fr, side), fr.dt);
      var expired := w.timeLeft - fr.dt <= 0.0;
      var a := UpdateFighter(w.p1, fr.in1, fr.dt);
      var b := UpdateFighter(w.p2, fr.in2, fr.dt);
      var x1 := ResolveHits(a, b, !expired);
      ResolveOutcome(a, b, !expired);
      ResolveOutcome(x1.def, x1.att, x1.started);
    }
  }

  /** The cooldown after a tick of a running match: reset to 0.35 by a new
      attack, otherwise lowered by min(dt, cooldown). A new attack leaves a
      fresh attack state whose `since` has taken the first 0.016 step when
      both models are loaded. */
  lemma TickCooldown(w: World, fr: Frame, side: Side)
    requires Inv(w) && fr.dt >= 0.0 && w.started
    ensures var f, g := FighterOf(w, side), FighterOf(Tick(w, fr), side);
      g.state.cooldown
      == (if ActivatesIn(w, fr, side) then AttackCooldown else f.state.cooldown - Min(fr.dt, f.state.cooldown))
      && (ActivatesIn(w, fr, side) ==>
            g.state == AttackState().(since := if w.p1.hasModel && w.p2.hasModel then SinceStep else 0.0))
  {
    UpdateCooldown(FighterOf(w, side), InputOf(fr, side), fr.dt);
    var expired := w.timeLeft - fr.dt <= 0.0;
    var a := UpdateFighter(w.p1, fr.in1, fr.dt);
    var b := UpdateFighter(w.p2, fr.in2, fr.dt);
    var x1 := ResolveHits(a, b, !expired);
    ResolveOutcome(a, b, !expired);
    ResolveOutcome(x1.def, x1.att, x1.started);
  }

  /** Without a new attack by `side`, a tick takes at most the hit that its
      current attack still holds off the other player's hp, and only by
      spending that attack; models are neither loaded nor dropped. */
  lemma TickHitBudget(w: World, fr: Frame, side: Side)
    requires !ActivatesIn(w, fr, side)
    ensures var o, v := Other(side), Tick(w, fr);
      FighterOf(v, o).hp <= FighterOf(w, o).hp
      && FighterOf(v, o).hp - Credit(FighterOf(v, side)) >= FighterOf(w, o).hp - Credit(FighterOf(w, side))
      && v.p1.hasModel == w.p1.hasModel && v.p2.hasModel == w.p2.hasModel
  {
    if w.started {
      var expired := w.timeLeft - fr.dt <= 0.0;
      var a := UpdateFighter(w.p1, fr.in1, fr.dt);
      var b := UpdateFighter(w.p2, fr.in2, fr.dt);
      var x1 := ResolveHits(a, b, !expired);
      ResolveOutcome(a, b, !expired);
      ResolveOutcome(x1.def, x1.att, x1.started);
    }
  }

  /** Without a new attack by `side`, its attack state in a running match
      keeps its name and `since` takes one 0.016 step when both models are
      loaded. */
  lemma TickSince(w: World, fr: Frame, side: Side)
    requires w.started && !ActivatesIn(w, fr, side) && FighterOf(w, side).state.name == Attack
    requires w.p1.hasModel && w.p2.hasModel
    ensures var g := FighterOf(Tick(w, fr), side);
      g.state.name == Attack && g.state.since == FighterOf(w, side).state.since + SinceStep
      && Tick(w, fr).p1.hasModel && Tick(w, fr).p2.hasModel
  {
    var expired := w.timeLeft - fr.dt <= 0.0;
    var a := UpdateFighter(w.p1, fr.in1, fr.dt);
    var b := UpdateFighter(w.p2, fr.in2, fr.dt);
    var x1 := ResolveHits(a, b, !expired);
    ResolveOutcome(a, b, !expired);
    ResolveOutcome(x1.def, x1.att, x1.started);
  }

  // ----- sequences of ticks -----

  /** The total time the frames advance the simulation by. */
  function SumDt(frames: seq<Frame>): real
    decreases |frames|
  {
    if frames == [] then 0.0 else frames[0].dt + SumDt(frames[1..])
  }

  predicate ForwardSteps(frames: seq<Frame>)
  {
    forall i :: 0 <= i < |frames| ==> frames[i].dt >= 0.0
  }

  /** `side` starts no new attack in any of the frames. */
  predicate NoActivation(w: World, frames: seq<Frame>, side: Side)
    decreases |frames|
  {
    frames == [] || (!ActivatesIn(w, frames[0], side) && NoActivation(Tick(w, frames[0]), frames[1..], side))
  }

  /** The hit an attack can still land: 10 while it is armed, else 0. */
  function Credit(f: Fighter): int
  {
    if f.state.name == Attack && f.state.canHit then Damage else 0
  }

  lemma {:induction false} RunKeepsInv(w: World, frames: seq<Frame>)
    requires Inv(w) && ForwardSteps(frames)
    ensures Inv(Run(w, frames))
    decreases |frames|
  {
    if frames != [] {
      TickKeepsInv(w, frames[0]);
      RunKeepsInv(Tick(w, frames[0]), frames[1..]);
    }
  }

  /** From a reset, whatever the keys and steps, both players stay in the
      arena with hp in {0, 10, ..., 100}. */
  lemma HpAfterReset(loaded1: bool, loaded2: bool, frames: seq<Frame>)
    requires ForwardSteps(frames)
    ensures var w := Run(MatchStart(loaded1, loaded2), frames);
      0 <= w.p1.hp <= FullHp && w.p1.hp % Damage == 0
      && 0 <= w.p2.hp <= FullHp && w.p2.hp % Damage == 0
      && -ArenaHalf <= w.p1.pos.x <= ArenaHalf && -ArenaHalf <= w.p2.pos.x <= ArenaHalf
      && 0.0 <= w.timeLeft <= MatchTime
  {
    MatchStartInv(loaded1, loaded2);
    RunKeepsInv(MatchStart(loaded1, loaded2), frames);
  }

  /** A stopped match stays exactly as it is. */
  lemma {:induction false} StoppedStaysStopped(w: World, frames: seq<Frame>)
    requires !w.started
    ensures Run(w, frames) == w
    decreases |frames|
  {
    if frames != [] {
      TickTimer(w, frames[0]);
      StoppedStaysStopped(Tick(w, frames[0]), frames[1..]);
    }
  }

  /** The timer never rises and never goes below 0, and a match only runs at
      the end if it ran at the start. */
  lemma {:induction false} TimerNeverRises(w: World, frames: seq<Frame>)
    requires w.timeLeft >= 0.0 && ForwardSteps(frames)
    ensures 0.0 <= Run(w, frames).timeLeft <= w.timeLeft
    ensures Run(w, frames).started ==> w.started
    decreases |frames|
  {
    if frames != [] {
      TickTimer(w, frames[0]);
      TimerNeverRises(Tick(w, frames[0]), frames[1..]);
    }
  }

  lemma {:induction false} CooldownBudget(w: World, frames: seq<Frame>, last: Frame, side: Side)
    requires Inv(w) && ForwardSteps(frames) && last.dt >= 0.0
    requires ActivatesIn(Run(w, frames), last, side)
    ensures SumDt(frames) + last.dt >= FighterOf(w, side).state.cooldown
    decreases |frames|
  {
    if frames != [] {
      var w1 := Tick(w, frames[0]);
      TickKeepsInv(w, frames[0]);
      CooldownBudget(w1, frames[1..], last, side);
      if w.started {
        TickCooldown(w, frames[0], side);
      } else {
        TickTimer(w, frames[0]);
      }
    }
  }

  /** Two attacks by one player are separated by at least 0.35 seconds of
      summed steps: the frames after the first, up to and including the one
      that starts the second. */
  lemma ActivationsSpaced(w: World, first: Frame, frames: seq<Frame>, last: Frame, side: Side)
    requires Inv(w) && first.dt >= 0.0 && ForwardSteps(frames) && last.dt >= 0.0
    requires ActivatesIn(w, first, side)
    requires ActivatesIn(Run(Tick(w, first), frames), last, side)
    ensures SumDt(frames) + last.dt >= AttackCooldown
  {
    TickCooldown(w, first, side);
    TickKeepsInv(w, first);
    CooldownBudget(Tick(w, first), frames, last, side);
  }

  /** At most one hit per attack: while `side` starts no new attack, the other
      player loses at most the one hit its current attack still holds, and
      nothing at all once that attack is spent. */
  lemma {:induction false} OneHitPerActivation(w: World, frames: seq<Frame>, side: Side)
    requires NoActivation(w, frames, side)
    ensures var o, v := Other(side), Run(w, frames);
      FighterOf(v, o).hp <= FighterOf(w, o).hp
      && FighterOf(v, o).hp - Credit(FighterOf(v, side)) >= FighterOf(w, o).hp - Credit(FighterOf(w, side))
      && FighterOf(v, o).hp >= FighterOf(w, o).hp - Damage
      && (Credit(FighterOf(w, side)) == 0 ==> FighterOf(v, o).hp == FighterOf(w, o).hp)
    decreases |frames|
  {
    if frames != [] {
      TickHitBudget(w, frames[0], side);
      OneHitPerActivation(Tick(w, frames[0]), frames[1..], side);
    }
  }

  /** While a running match goes on without a new attack by `side`, its
      attack's `since` counts the ticks in steps of 0.016 (with both models
      loaded); HitOnlyInWindow draws the consequence for hits. */
  lemma {:induction false} SinceCountsTicks(w: World, frames: seq<Frame>, side: Side)
    requires FighterOf(w, side).state.name == Attack && w.p1.hasModel && w.p2.hasModel
    requires NoActivation(w, frames, side) && Run(w, frames).started
    ensures FighterOf(Run(w, frames), side).state.name == Attack
    ensures FighterOf(Run(w, frames), side).state.since
            == FighterOf(w, side).state.since + SinceStep * |frames| as real
    decreases |frames|
  {
    if frames != [] {
      if !w.started {
        StoppedStaysStopped(w, frames);
        assert false;
      }
      TickSince(w, frames[0], side);
      SinceCountsTicks(Tick(w, frames[0]), frames[1..], side);
    }
  }

  lemma TickKeepsModels(w: World, fr: Frame)
    ensures Tick(w, fr).p1.hasModel == w.p1.hasModel && Tick(w, fr).p2.hasModel == w.p2.hasModel
  {
    if w.started {
      var expired := w.timeLeft - fr.dt <= 0.0;
      var a := UpdateFighter(w.p1, fr.in1, fr.dt);
      var b := UpdateFighter(w.p2, fr.in2, fr.dt);
      var x1 := ResolveHits(a, b, !expired);
      ResolveOutcome(a, b, !expired);
      ResolveOutcome(x1.def, x1.att, x1.started);
    }
  }

  /** No tick loads or drops a character model. */
  lemma {:induction false} RunKeepsModels(w: World, frames: seq<Frame>)
    ensures Run(w, frames).p1.hasModel == w.p1.hasModel && Run(w, frames).p2.hasModel == w.p2.hasModel
    decreases |frames|
  {
    if frames != [] {
      TickKeepsModels(w, frames[0]);
      RunKeepsModels(Tick(w, frames[0]), frames[1..]);
    }
  }

  /** The other player loses hp in a tick without a new attack by `side`
      only if the match was running, both models are loaded, and `side` is
      attacking with its next `since` step inside the active window. */
  lemma TickHitNeedsWindow(w: World, fr: Frame, side: Side)
    requires !ActivatesIn(w, fr, side)
    requires FighterOf(Tick(w, fr), Other(side)).hp < FighterOf(w, Other(side)).hp
    ensures w.started && w.p1.hasModel && w.p2.hasModel
    ensures FighterOf(w, side).state.name == Attack
    ensures InWindow(FighterOf(w, side).state.since + SinceStep)
  {
    if !w.started {
      TickTimer(w, fr);
      assert false;
    }
    var expired := w.timeLeft - fr.dt <= 0.0;
    var a := UpdateFighter(w.p1, fr.in1, fr.dt);
    var b := UpdateFighter(w.p2, fr.in2, fr.dt);
    var x1 := ResolveHits(a, b, !expired);
    ResolveOutcome(a, b, !expired);
    ResolveOutcome(x1.def, x1.att, x1.started);
  }

  /** A hit comes only on the 4th to the 12th tick of an attack: if `side`
      starts an attack in `first`, starts none in `frames` or in `last`, and
      the other player loses hp in `last`, then the attack is 4 to 12 ticks
      old in `last`, counting `first` as its first tick. */
  lemma HitOnlyInWindow(w: World, first: Frame, frames: seq<Frame>, last: Frame, side: Side)
    requires Inv(w) && first.dt >= 0.0
    requires ActivatesIn(w, first, side)
    requires NoActivation(Tick(w, first), frames, side)
    requires var v := Run(Tick(w, first), frames);
      !ActivatesIn(v, last, side)
      && FighterOf(Tick(v, last), Other(side)).hp < FighterOf(v, Other(side)).hp
    ensures 4 <= |frames| + 2 <= 12
  {
    var w1 := Tick(w, first);
    var v := Run(w1, frames);
    TickHitNeedsWindow(v, last, side);
    RunKeepsModels(w1, frames);
    TickKeepsModels(w, first);
    TickCooldown(w, first, side);
    SinceCountsTicks(w1, frames, side);
    assert FighterOf(v, side).state.since + SinceStep == SinceStep * (|frames| + 2) as real;
    HitWindow(|frames| + 2);
  }
}
