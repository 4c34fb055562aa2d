# Prime8s Fighter combat loop in Dafny

This project models the fixed-step combat simulation of the Prime8s Fighter
brawler (`main.js`). The game holds two mutable player records and a `world`
record (`started`, `timeLeft`, `lastTick`). Every animation frame calls
`simulate(dt)`, which does the following:

- counts the match timer down;
- moves each player from its held keys, with a jump, gravity, the floor and
  the arena walls;
- decays each player's attack cooldown and starts new attacks;
- resolves the hits of P1 on P2 and then of P2 on P1. A hit costs 10 hp, and
  the KO check stops the match when either player's hp is 0 or less.

`startMatch` resets both records and starts the match once the character
models have loaded.

The project has three files:

- `combat.dfy`, module `Combat`: the rules as functions on values. These are
  the game's constants, `clamp`, `idleState`/`attackState`, the `animate` step
  cap (`FrameDelta`), one player's update (`UpdateFighter`), `resolveHits`
  with its KO check (`ResolveHits`), a whole `simulate` (`Tick`), a sequence
  of ticks (`Run`) and the state after `startMatch` (`MatchStart`).
- `engine.dfy`, module `Engine`: the game as it runs, in place. Class `Player`
  has the fields of a `players` entry. Class `Game` holds the two players and
  the `world` fields. `Simulate` loops over the players like the source does,
  and `ResolveHits`, `UpdateHPBars`, `StartMatch` and `Animate` update the
  fields statement by statement. Each method is proved to leave the state that
  the matching `Combat` function computes.
- `proofs.dfy`, module `CombatProofs`: what the rules guarantee. It covers one
  update, one hit exchange, one tick and whole sequences of ticks. The state
  invariant `Inv` says:
  - both players are inside the arena and on or above the floor;
  - facing is ±1;
  - the cooldown is in [0, 0.35];
  - hp is in {0, 10, …, 100};
  - `since` is a whole number of 0.016 steps;
  - an idle state is exactly `idleState()`;
  - a running match has time left and both players above 0 hp.

The quirks of the source are modelled as written:

- **The "end attack after 0.3s" branch never runs.** The early return above it
  leaves whenever `since` is not below 0.20. `ResolveHits` keeps the branch as
  written, `AttackNeverEndsByItself` proves it inert, and in
  `Engine.Game.ResolveHits` the branch holds `assert false`. An attack state
  therefore lasts until a new attack replaces it or the match is reset.
- **Horizontal knockback is lost.** The `vel.x` a hit writes is overwritten on
  the next update before integration (`KnockbackLost`).
- **The rest of a tick runs after the match ends.** Both players move and both
  exchanges run in the tick in which time runs out (`PhysicsIgnoresTimeout`).
  P2's exchange runs after P1's hit has ended the match
  (`ExchangeIgnoresStarted`).
- **`since` stalls without models.** It advances only while both players have
  a loaded model (`SinceStallsWithoutModels`).

The model follows the code: facing follows the keys, the only match states
are `started` true or false, and nothing names a winner.

## Model

| member | source | states |
|---|---|---|
| `Combat.Clamp` | main.js:206 | the result is at least the lower bound and, when the bounds are ordered, at most the upper one. It equals the value inside the range, the lower bound below it and the upper bound above it (the lower bound if the bounds are crossed) |
| `Combat.FrameDelta` | main.js:306-308 | the step never exceeds 0.033. It is the elapsed time in seconds when that is smaller. It is non-negative exactly when the clock did not go backwards |
| `Combat.Cooled` | main.js:259 | for a non-negative cooldown and step, the cooldown drops by min(dt, cooldown) and stays in [0, cooldown] |
| `Engine.Player.constructor` | main.js:29-35 | a new player record is idle, at x = ∓4 on the floor, at rest, facing ±1, with 100 hp and no model |
| `Engine.Player.Update` | main.js:220-266 | one pass of the `simulate` player loop changes the record exactly as `UpdateFighter` does |
| `Engine.Player.Reset` | main.js:177-183 | the reset loop body gives position (∓4, 0), zero velocity, facing ±1, 100 hp and the idle state, and keeps the model |
| `Engine.Player.LoadCharacter` | main.js:125-170 | after a load settles the state is idle and the model is present exactly when it loaded; nothing else changes |
| `Engine.Game.constructor` | main.js:17-32 | the page starts with no match running, 60 s on the timer and both players in their start records |
| `Engine.Game.UpdateHPBars` | main.js:198-204 | the match stops when either player's hp is 0 or less; otherwise `started` is kept |
| `Engine.Game.ResolveHits` | main.js:277-304 | the attacker, the defender and `started` end up as `Combat.ResolveHits` computes; the timer and the clock are untouched |
| `Engine.Game.Simulate` | main.js:208-275 | the whole world ends up as `Combat.Tick` computes, with the players updated in array order and the hits resolved P1→P2 then P2→P1 |
| `Engine.Game.Animate` | main.js:306-309 | a frame sets `lastTick` to the clock reading and runs one tick with the capped step |
| `Engine.Game.StartMatch` | main.js:172-196 | after the reset and the loads the world is `MatchStart`: running, 60 s, both players in their start records with the models that loaded |
| `CombatProofs.MatchStartInv` | main.js:174-195 | the world after `startMatch` and the world at page load both satisfy the invariant; only the first is running |
| `CombatProofs.UpdateBounds` | main.js:223-250 | after an update x is in [−10, 10] and y ≥ 0. When the floor snap fires, y = 0 and vel.y = 0; otherwise the new vel.y is the launch speed after gravity. The jump speed of 16 is taken only when y ≤ 0.001 at the start of the tick, and always then if the jump key is held |
| `CombatProofs.UpdateFacing` | main.js:226-230 | facing becomes −1 or 1 exactly when only left or only right is held, is kept otherwise, and so stays ±1 |
| `CombatProofs.KnockbackLost` | main.js:229-241 | the update does not depend on the incoming vel.x, so the knockback written at main.js:294 never moves a player; vel.x is always −7, 0 or 7 |
| `CombatProofs.UpdateCooldown` | main.js:258-265 | an attack starts exactly when the key is held and cooldown ≤ dt, and it gives a fresh attack state (cooldown 0.35, since 0, canHit). Otherwise only the cooldown changes, dropping by min(dt, cooldown) |
| `CombatProofs.ResolveOutcome` | main.js:277-299 | a hit lands exactly when both models exist, the state is attack, canHit holds, 0.05 < since + 0.016 < 0.20, |dx| < 1.6 from the point one unit ahead and |dy| < 1.5. A hit costs exactly 10 hp, adds ±6 to vel.x along the facing, lifts vel.y to at least 6, spends the attack and runs the KO check. Without a hit the defender and `started` are unchanged. `since` grows by 0.016 exactly when both models exist and the state is attack |
| `CombatProofs.AttackNeverEndsByItself` | main.js:281-303 | `resolveHits` never changes the attacker's state name: the 0.3 s branch is dead |
| `CombatProofs.SpentAttackHarmless` | main.js:284-297 | once canHit is false, `resolveHits` changes neither the defender nor `started`, and canHit stays false |
| `CombatProofs.SinceStallsWithoutModels` | main.js:278-281 | without both models `resolveHits` changes nothing |
| `CombatProofs.ExchangeIgnoresStarted` | main.js:271-274 | the players after an exchange do not depend on `started`, so P2's exchange runs unchanged after P1's hit has ended the match |
| `CombatProofs.HitWindow` | main.js:281-283 | after k steps of 0.016 the attack is active exactly when 4 ≤ k ≤ 12 |
| `CombatProofs.HitTicks` | main.js:281-291 | a hit lands only when `since` has reached 0.016·k with 4 ≤ k ≤ 12 |
| `CombatProofs.UpdateKeepsInv` | main.js:220-265 | a player update with dt ≥ 0 keeps each player's part of the invariant and changes neither hp nor the model |
| `CombatProofs.ResolveKeepsInv` | main.js:277-304 | an exchange against a defender with hp > 0 keeps both players' invariants. It never changes the attacker's hp. It never restarts the match, and keeps it running only if a hit leaves both players above 0 hp |
| `CombatProofs.TickKeepsInv` | main.js:208-275 | with dt ≥ 0 every tick keeps the invariant, including hp in {0, 10, …, 100} and "running ⇒ both hp > 0 and time left" |
| `CombatProofs.TickTimer` | main.js:209-216 | a stopped match does not change. A running one loses dt of time, stopping at 0; reaching 0 stops the match, and a match still running has time left |
| `CombatProofs.PhysicsIgnoresTimeout` | main.js:212-220 | in a running match the players after a tick do not depend on the time left, so movement and hits still happen in the tick that ends the match |
| `CombatProofs.TickRearmsOnlyOnActivation` | main.js:258-265 | without a new attack a tick can neither re-arm a spent attack nor raise the cooldown nor change the state name |
| `CombatProofs.TickCooldown` | main.js:258-265 | in a running match the cooldown after a tick is 0.35 after a new attack, else it drops by min(dt, cooldown). A new attack leaves a fresh attack state whose `since` already took its first step when both models exist |
| `CombatProofs.TickHitBudget` | main.js:277-298 | without a new attack by a player, the other's hp can only fall, and only by the hit that player's armed attack spends; models never change |
| `CombatProofs.TickSince` | main.js:279-281 | without a new attack, an attacking player in a running match with both models stays attacking and its `since` grows by exactly 0.016 per tick |
| `CombatProofs.RunKeepsInv` | main.js:208-275 | any sequence of ticks with non-negative steps keeps the invariant |
| `CombatProofs.HpAfterReset` | main.js:174-202 | from a reset, after any keys and non-negative steps, both hp stay in {0, 10, …, 100}, both x in [−10, 10] and the timer in [0, 60] |
| `CombatProofs.StoppedStaysStopped` | main.js:209 | once the match has stopped, no sequence of ticks changes anything |
| `CombatProofs.TimerNeverRises` | main.js:212-216 | over any ticks with non-negative steps the timer never rises and never goes below 0, and the match can run at the end only if it ran at the start |
| `CombatProofs.CooldownBudget` | main.js:259-262 | a player can start an attack only after steps summing to at least its cooldown at the start |
| `CombatProofs.ActivationsSpaced` | main.js:259-265 | two attacks by one player are at least 0.35 s of summed steps apart |
| `CombatProofs.OneHitPerActivation` | main.js:284-297 | while a player starts no new attack, the other player's hp never rises and falls by at most one hit of 10. It does not fall at all once that attack is spent |
| `CombatProofs.HitOnlyInWindow` | main.js:259-291 | if a player starts an attack in one tick, starts no new one in the following ticks, and the other player loses hp in the last of them, then that hit came on tick 4 to 12 of the attack. Counting the starting tick as tick 1, the number of ticks is between 4 and 12 |
| `CombatProofs.RunKeepsModels` | main.js:208-304 | no sequence of ticks loads or drops a character model |
| `CombatProofs.SinceCountsTicks` | main.js:279-283 | while a running match with both models goes on and the player starts no new attack, its attack's `since` grows by 0.016 per tick, so `since` counts the ticks since the attack began |

## Left out

- Scene, lights, floor, wall, camera, renderer, `onResize` and rendering in `animate` (main.js:37-73, 109-113, 310-311): these only present the game.
- The manifest fetch, the dropdowns and the GLB loading and scaling in `loadCharacter` (main.js:75-96, 125-170): these are network and foreign calls. A player keeps only `hasModel`, and `StartMatch` takes the outcome of each load as a flag.
- DOM writes to the timer text and the HP bar widths, model transform writes and animation-mixer updates (main.js:176, 199-200, 217, 253-256, 268): these are user interface only.
- Key binding in `onKey` (main.js:115-123): the held keys are passed to `Simulate` as one `Input` per player.
- The `performance.now`/`requestAnimationFrame` clock: `Animate` takes the clock reading as a parameter.
- The interleaving of overlapping asynchronous `startMatch` calls: this is concurrency. `StartMatch` models one call whose loads have settled; the ticks in between do nothing because `started` is false.
- IEEE-754 rounding: all quantities are `real`. The 0.016 steps do not fall near the 0.05 and 0.20 bounds, so exact arithmetic gives the same tick counts.
- The z coordinate: it stays 0 throughout the game.
- Combat.Cooled: assumes dt ≥ 0. `animate` caps the step at 0.033 but does not exclude a negative one (`FrameDelta` states exactly when it is negative). With a negative step the cooldown can grow, an attack can start from cooldown 0 whatever dt is, and the timer can rise.
- CombatProofs.UpdateCooldown: assumes dt ≥ 0, for the same reason as Combat.Cooled.
- CombatProofs.UpdateKeepsInv: assumes dt ≥ 0, for the same reason as Combat.Cooled.
- CombatProofs.TickKeepsInv: assumes dt ≥ 0, for the same reason as Combat.Cooled.
- CombatProofs.TickRearmsOnlyOnActivation: assumes dt ≥ 0, for the same reason as Combat.Cooled.
- CombatProofs.TickCooldown: assumes dt ≥ 0, for the same reason as Combat.Cooled.
- CombatProofs.RunKeepsInv: assumes dt ≥ 0, for the same reason as Combat.Cooled.
- CombatProofs.HpAfterReset: assumes dt ≥ 0, for the same reason as Combat.Cooled.
- CombatProofs.TimerNeverRises: assumes dt ≥ 0, for the same reason as Combat.Cooled.
- CombatProofs.CooldownBudget: assumes dt ≥ 0, for the same reason as Combat.Cooled.
- CombatProofs.ActivationsSpaced: assumes dt ≥ 0, for the same reason as Combat.Cooled.
- CombatProofs.HitOnlyInWindow: assumes dt ≥ 0, for the same reason as Combat.Cooled.
- Engine.Game.ResolveHits: the dead "end attack after 0.3s" branch holds `assert false` in place of its reset to the idle state, because it provably never runs. `Combat.ResolveHits` keeps the branch as written.
