# HUD states: the per-frame simulation, in Dafny

This project models the simulation core of the pygame example
`week6/examples/06-hud-states/hud_states/game.py`, then proves properties of it.

In that game, a 34×34 player moves through a walled playfield, collects 22×22 coins (10 points each) and loses HP to 32×32 hazards. Four modes govern what runs: title, play, pause and game over.

The model has seven modules:

- `Geometry`: pygame's `Rect` with strict `colliderect`; the two sprite collision queries (`spritecollideany`, `spritecollide` with and without `dokill`); Python's `round`; and `_clamp`.
- `Arena`: the screen constants, the playfield and the six walls of a level.
- `Combat`: the invincibility timer (`Player.update`), `_apply_damage` on the player's vitals, frames and runs of frames, and the HP colour bands.
- `Spawner`: the rejection sampling of `_spawn_coin` and `_spawn_hazard`.
  - `SpawnOne` and `SpawnTimes` are reference definitions.
  - `Outcome` and `RunFrom` characterise one spawn call and a run of several without recursion.
  - Lemmas connect the two, and prove what a spawned sprite is clear of.
- `Movement`: `_move_player_axis` as a function on the player's position and rectangle, with its lemmas.
- `Modes`: the branches of `handle_event` as a dispatch table, with the transition lemmas.
- `HudGame`: the `Player` and `Game` classes.
  - Their fields are updated in place.
  - Each simulation method of `Game` and `Player` (`_reset_level`, `_spawn_coin`, `_spawn_hazard`, `handle_event`, `_move_player_axis`, `_apply_damage`, `update`, `Player.update`) is a method here, proved against the functions above.
  - `Game.Valid()` is the invariant that every public operation keeps:
    - the six walls;
    - a 34×34 player whose rectangle sits where its position rounds to;
    - HP within [0, 100];
    - a non-negative invincibility timer;
    - a score made of whole coins;
    - a live player while playing or paused;
    - coins pairwise apart, clear of the walls and of the player, and inside the coin box;
    - hazards clear of the walls and inside the hazard box.

There are three inputs from outside:

- The random generator `random.Random(6)` is a stream `rng: nat -> int` plus a cursor `drawn`. Each `randint(lo, hi)` reads one value, as `lo + rng(k) % (hi - lo + 1)`.
- The direction vector that `_read_move` returns is the `(moveX, moveY)` argument of `Game.Update`.
- Escape's `pygame.event.post(QUIT)` is the `quit` result of `Game.HandleEvent`.

Two properties of the code that the model states as they are:

- **No guarantee of non-penetration.** `_move_player_axis` sets the edge outright against each overlapped wall in turn, so for a non-zero move only the last wall in group order is guaranteed to be cleared. A zero move sets no edge at all, so it clears no wall. `Movement.SingleHitCleared` and `Movement.NearestLastClearsAll` state when every wall the moved rectangle hit is cleared. Even then the snap can move the player into a wall it jumped over: `Movement.SnapCanEnterSkippedWall` gives such a move.
- **At most 7 coins and 2 hazards.** A spawn call gives up after 200 rejected candidates, so a reset guarantees at most 7 coins and at most 2 hazards.

## Model

| member | source | states |
|---|---|---|
| Geometry.Clamp | week6/examples/06-hud-states/hud_states/game.py:9-10 | the result lies in [lo, hi]; it is the value itself when inside, lo below and hi above; an empty range gives lo, as `max(lo, min(hi, value))` does |
| Geometry.AtCenter | week6/examples/06-hud-states/hud_states/game.py:37 | `get_rect(center=...)` gives a rectangle of the given size whose centre is the given point |
| Geometry.WithCenterX | week6/examples/06-hud-states/hud_states/game.py:246 | setting `rect.centerx` moves only the left edge, and the centre lands on the value |
| Geometry.WithCenterY | week6/examples/06-hud-states/hud_states/game.py:249 | setting `rect.centery` moves only the top edge, and the centre lands on the value |
| Geometry.WithRight | week6/examples/06-hud-states/hud_states/game.py:258 | setting `rect.right` keeps the size and the top, and the right edge lands on the value |
| Geometry.WithBottom | week6/examples/06-hud-states/hud_states/game.py:264 | setting `rect.bottom` keeps the size and the left edge, and the bottom edge lands on the value |
| Geometry.Collide | week6/examples/06-hud-states/hud_states/game.py:173 | `colliderect`: a colliding pair has positive sizes, and rectangles that are apart or only touch along an edge do not collide |
| Geometry.CollidesAny | week6/examples/06-hud-states/hud_states/game.py:169-186 | `spritecollideany` is true iff some member of the group collides with the rectangle, so an empty group collides with nothing; `Hits` ties it to `spritecollide` |
| Geometry.CollideSymmetric | week6/examples/06-hud-states/hud_states/game.py:173 | `colliderect` does not depend on the order of its arguments |
| Geometry.Hits | week6/examples/06-hud-states/hud_states/game.py:251 | `spritecollide` returns only members that collide with the sprite; it returns nothing exactly when `spritecollideany` is false |
| Geometry.Survivors | week6/examples/06-hud-states/hud_states/game.py:291 | after `dokill=True`, no remaining coin collides with the player |
| Geometry.HitsExactly | week6/examples/06-hud-states/hud_states/game.py:291 | a rectangle is reported iff it is in the group and collides; it survives iff it is in the group and does not collide |
| Geometry.HitsAndSurvivorsPartition | week6/examples/06-hud-states/hud_states/game.py:291 | the reported and the surviving members together are the group, as multisets |
| Geometry.SurvivorsKeepDisjoint | week6/examples/06-hud-states/hud_states/game.py:291 | removing the collected coins keeps a pairwise-apart group pairwise apart |
| Geometry.Round | week6/examples/06-hud-states/hud_states/game.py:246 | `int(round(x))` is within one half of x, and ties go to the even integer |
| Geometry.RoundWhole | week6/examples/06-hud-states/hud_states/game.py:261 | rounding a whole coordinate gives it back |
| Arena.LevelWalls | week6/examples/06-hud-states/hud_states/game.py:145-152 | a level has the six walls `_reset_level` adds |
| Arena.CentreClearOfWalls | week6/examples/06-hud-states/hud_states/game.py:137-152 | a box of up to 100×100 centred on the playfield, where the new player is placed, overlaps none of the six walls |
| Combat.Invincible | week6/examples/06-hud-states/hud_states/game.py:47-49 | `is_invincible` is true iff the timer is positive; `Tick` and `Damage` are stated through it |
| Combat.Tick | week6/examples/06-hud-states/hud_states/game.py:51-53 | a stopped timer stays put; a running timer drops by dt but never below zero; for dt ≥ 0 it keeps running iff more than dt remained |
| Combat.Damage | week6/examples/06-hud-states/hud_states/game.py:269-275 | no effect while invincible; otherwise HP drops by 20, floored at 0, and the timer becomes 0.65 |
| Combat.Defeats | week6/examples/06-hud-states/hud_states/game.py:270-277 | the hit ends the game: it lands (the player is not invincible) and leaves HP ≤ 0; `ApplyDamage` and `Update` switch to game over through it |
| Combat.DefeatsExactlyAtZero | week6/examples/06-hud-states/hud_states/game.py:276-277 | a hit ends the game iff it lands and leaves exactly 0 HP |
| Combat.Frame | week6/examples/06-hud-states/hud_states/game.py:289-299 | one frame's vitals: HP never rises; when not touching or still invincible after the tick, HP is kept and the timer is the ticked one; otherwise 20 HP are lost (floored at 0) and the 0.65 s window opens |
| Combat.ElapsedNonNegative | week6/examples/06-hud-states/hud_states/game.py:289 | frames with non-negative dt add up to a non-negative time |
| Combat.NoLossWithinWindow | week6/examples/06-hud-states/hud_states/game.py:51-53 | within a running invincibility window, any touching loses no HP, and the timer counts down by the elapsed time |
| Combat.HitThenWindow | week6/examples/06-hud-states/hud_states/game.py:269-275 | after a landed hit, no HP is lost for the next 0.65 s, even while touching |
| Combat.SpacedHits | week6/examples/06-hud-states/hud_states/game.py:269-275 | n touching frames each at least 0.65 s apart take 20·n HP, floored at 0 |
| Combat.FiveSpacedHitsDefeat | week6/examples/06-hud-states/hud_states/game.py:269-277 | from full health, five spaced hits leave 100, 80, … 0 HP in turn |
| Combat.BandOf | week6/examples/06-hud-states/hud_states/game.py:360-366 | bad iff hp/max ≤ 0.30; warn iff 0.30 < hp/max ≤ 0.60; ok iff hp/max > 0.60 |
| Combat.RatioAtMost | week6/examples/06-hud-states/hud_states/game.py:361-364 | the real-valued ratio test equals the integer test hp·100 ≤ p·max |
| Spawner.BoxOf | week6/examples/06-hud-states/hud_states/game.py:165-183 | candidate centres are drawn in [left+40, right−40] × [top+40, bottom−40] for coins, with margin 60 for hazards; both boxes are non-empty |
| Spawner.RandInt | week6/examples/06-hud-states/hud_states/game.py:165 | `randint(lo, hi)` lies in [lo, hi] |
| Spawner.Candidate | week6/examples/06-hud-states/hud_states/game.py:165-167 | a candidate has the sprite's size and its centre in the kind's box |
| Spawner.Attempt | week6/examples/06-hud-states/hud_states/game.py:164-167 | the candidate of the i-th try has the kind's size and its centre inside the kind's box |
| Spawner.AttemptReads | week6/examples/06-hud-states/hud_states/game.py:164-167 | the i-th candidate of a call reads draws k+2i and k+2i+1 |
| Spawner.AttemptDrawn | week6/examples/06-hud-states/hud_states/game.py:165-167 | the sprite built from those two draws is that candidate |
| Spawner.Rejected | week6/examples/06-hud-states/hud_states/game.py:169-189 | a hazard is rejected iff it touches a wall or the player; a kept candidate of either kind touches no wall and not the player, and a kept coin touches no coin of the group |
| Spawner.Search | week6/examples/06-hud-states/hud_states/game.py:164-178 | the search stays within its draw budget; a failed one used the whole budget |
| Spawner.SearchFindsFirstClear | week6/examples/06-hud-states/hud_states/game.py:164-178 | every candidate before the placed one was rejected; the placed one is clear; a failed search rejected every candidate |
| Spawner.SpawnOne | week6/examples/06-hud-states/hud_states/game.py:163-193 | the reference definition of one spawn call: at most 200 tries, all 200 when nothing is placed, and a placed sprite passes the checks |
| Spawner.SpawnOneSound | week6/examples/06-hud-states/hud_states/game.py:163-193 | at most 200 tries; at most one sprite added; nothing added when all 200 fail; a placed sprite fits |
| Spawner.Outcome | week6/examples/06-hud-states/hud_states/game.py:164-193 | one spawn call try by try: at most 200 tries, every try before the last rejected, a placed sprite is the last try's candidate and passes the checks, and a call that places nothing made all 200 tries |
| Spawner.OutcomeIsSpawnOne | week6/examples/06-hud-states/hud_states/game.py:163-193 | the loop-level characterisation of a spawn call (earlier candidates rejected, the last kept, or 200 failures) holds of exactly the reference result |
| Spawner.OutcomeUnique | week6/examples/06-hud-states/hud_states/game.py:163-193 | a spawn call has only one outcome |
| Spawner.SpawnTimes | week6/examples/06-hud-states/hud_states/game.py:154-158 | n calls in a row add at most n sprites and read at most 400·n draws |
| Spawner.SpawnTimesSound | week6/examples/06-hud-states/hud_states/game.py:154-158 | every sprite a run adds fits against the group as it was when placed |
| Spawner.RunFrom | week6/examples/06-hud-states/hud_states/game.py:154-158 | n spawn calls in a row: each call is an Outcome from the cursor and the group the previous one left, and adds what it placed |
| Spawner.RunIsSpawnTimes | week6/examples/06-hud-states/hud_states/game.py:154-158 | a recorded run of n calls leaves the group and the cursor that SpawnTimes gives |
| Spawner.ExtendRun | week6/examples/06-hud-states/hud_states/game.py:154-155 | appending a call's outcome to a run gives a longer run |
| Spawner.RunLeavesIsSpawnTimes | week6/examples/06-hud-states/hud_states/game.py:292-295 | what some run leaves is the reference result |
| Spawner.AllFitCoinsDisjoint | week6/examples/06-hud-states/hud_states/game.py:171-172 | coins that each fitted the growing group leave it pairwise apart |
| Spawner.SpawnCoinsKeepApart | week6/examples/06-hud-states/hud_states/game.py:163-178 | spawned coins keep the group pairwise apart, and are sized, boxed, and clear of the walls and the player |
| Spawner.SpawnHazardsPlaced | week6/examples/06-hud-states/hud_states/game.py:180-193 | spawned hazards are sized, boxed, and clear of the walls and of the player; they are not checked against each other |
| Spawner.RespawnKeepsApart | week6/examples/06-hud-states/hud_states/game.py:291-295 | the surviving coins followed by their replacements are pairwise apart and clear of the walls and of the moved player |
| Spawner.SurvivorsPlaced | week6/examples/06-hud-states/hud_states/game.py:291 | the coins that survive a collection are clear of the player |
| Movement.Snap | week6/examples/06-hud-states/hud_states/game.py:256-266 | one wall is processed: the size is kept and the other axis is untouched; a zero move changes nothing; a non-zero move clears that wall |
| Movement.SnapAll | week6/examples/06-hud-states/hud_states/game.py:255-265 | the loop over the hit walls keeps the size and the other axis |
| Movement.SnapAllIsLast | week6/examples/06-hud-states/hud_states/game.py:255-265 | only the last wall of the list decides the final rectangle |
| Movement.Recenter | week6/examples/06-hud-states/hud_states/game.py:244-249 | the rectangle is re-centred on the rounded position, along the moved axis only |
| Movement.MoveAxis | week6/examples/06-hud-states/hud_states/game.py:243-267 | the other axis's position and edge are untouched, and the size is kept |
| Movement.FreeMove | week6/examples/06-hud-states/hud_states/game.py:251-253 | with no wall hit, the position is moved by the amount and the rectangle re-centred on it |
| Movement.BlockedMove | week6/examples/06-hud-states/hud_states/game.py:255-267 | after a hit, the position is on the rectangle's centre, and the rectangle is the one snapped against the last hit wall alone; a non-zero move clears that wall |
| Movement.ZeroMoveKeepsRect | week6/examples/06-hud-states/hud_states/game.py:243-267 | a zero move leaves the rectangle where it was |
| Movement.MoveKeepsSynced | week6/examples/06-hud-states/hud_states/game.py:243-267 | a move keeps the rectangle where the position rounds to |
| Movement.Velocity | week6/examples/06-hud-states/hud_states/game.py:284 | one component of `move * speed` |
| Movement.Displacement | week6/examples/06-hud-states/hud_states/game.py:286-287 | `vel * dt`, the distance one velocity component carries in a frame |
| Movement.Step | week6/examples/06-hud-states/hud_states/game.py:286-287 | the x move then the y move keep the player's size |
| Movement.Travel | week6/examples/06-hud-states/hud_states/game.py:284-287 | moving at `vel` for dt seconds keeps the player's size |
| Movement.TravelKeepsSynced | week6/examples/06-hud-states/hud_states/game.py:286-287 | a frame's two moves keep the rectangle where the position rounds to |
| Movement.NearestLastClearsAll | week6/examples/06-hud-states/hud_states/game.py:255-265 | when the last hit wall is the nearest, a non-zero move clears every hit wall |
| Movement.SnapClearsFarther | week6/examples/06-hud-states/hud_states/game.py:255-265 | snapping to a wall also clears a wall that lies no nearer |
| Movement.SnapCanEnterSkippedWall | week6/examples/06-hud-states/hud_states/game.py:251-265 | a 75-pixel move that hits one wall, is snapped back clear of it, and lands on a wall the moved rectangle jumped over |
| Movement.SingleHitCleared | week6/examples/06-hud-states/hud_states/game.py:251-267 | with a single hit wall and a non-zero move, the player ends clear of it |
| Modes.Dispatch | week6/examples/06-hud-states/hud_states/game.py:195-221 | the branch order: Escape quits in every mode, R and only R resets, a mode change is P in play or pause and goes elsewhere, and reset-and-play is Space in title or game over |
| Modes.NextMode | week6/examples/06-hud-states/hud_states/game.py:211-221 | a changed mode is play or pause, and only P or Space changes it |
| Modes.ResetsLevel | week6/examples/06-hud-states/hud_states/game.py:207-221 | the branches that call `_reset_level`: R, and Space in title or game over (the first via `Reset`, the second via `ResetAndPlay`) |
| Modes.ModeTable | week6/examples/06-hud-states/hud_states/game.py:211-221 | the mode changes iff P is pressed in play or pause, or Space in title or game over; the targets are pause, play and play |
| Modes.IgnoredEvents | week6/examples/06-hud-states/hud_states/game.py:196-197 | a non-key event, or an unknown key, is ignored |
| Modes.ResetTable | week6/examples/06-hud-states/hud_states/game.py:207-221 | the level resets iff R is pressed, or Space in title or game over; R keeps the mode |
| Modes.DebugTable | week6/examples/06-hud-states/hud_states/game.py:203-205 | the debug flag flips iff F1 is pressed, in any mode |
| Modes.PauseRoundTrip | week6/examples/06-hud-states/hud_states/game.py:211-217 | P toggles play and pause; two presses come back to the start |
| Modes.OnlyEdges | week6/examples/06-hud-states/hud_states/game.py:195-221 | every mode change is one of title→play, gameover→play, play→pause, pause→play |
| HudGame.LaidOutFromIsSpawnTimes | week6/examples/06-hud-states/hud_states/game.py:154-158 | a laid-out level holds the coins of 7 spawn calls from the start cursor, then the hazards of 2 more |
| HudGame.MoveKeepsSound | week6/examples/06-hud-states/hud_states/game.py:284-289 | the moves and the tick keep the invariant, with the coins set aside |
| HudGame.Player.constructor | week6/examples/06-hud-states/hud_states/game.py:32-45 | a fresh player: 34×34 at the given centre, position on that centre, at rest, speed 320, 100 HP out of 100, not invincible |
| HudGame.Player.IsInvincible | week6/examples/06-hud-states/hud_states/game.py:47-49 | true iff the timer is positive |
| HudGame.Player.Update | week6/examples/06-hud-states/hud_states/game.py:51-53 | the timer becomes Tick of its old value |
| HudGame.Game.constructor | week6/examples/06-hud-states/hud_states/game.py:90-120 | title mode, debug off, and a fresh level laid out from draw 0 that satisfies the invariant |
| HudGame.Game.FreshLevelValid | week6/examples/06-hud-states/hud_states/game.py:130-161 | a freshly laid-out level satisfies the invariant and has at most 7 coins and at most 2 hazards |
| HudGame.Game.ResetLevel | week6/examples/06-hud-states/hud_states/game.py:130-161 | a new player; score 0; the six walls; 7 coin calls, then 2 hazard calls; invariant kept; ≤ 7 coins, ≤ 2 hazards; the player overlaps no wall; the mode becomes play only when `keep_state` is false; debug kept |
| HudGame.Game.ClearLevel | week6/examples/06-hud-states/hud_states/game.py:131-152 | empty groups, score 0, a fresh player at the playfield centre overlapping no wall, and the six walls |
| HudGame.Game.SpawnLevel | week6/examples/06-hud-states/hud_states/game.py:154-158 | the seven coin calls and two hazard calls lay the level out and establish the invariant |
| HudGame.Game.SpawnCoin | week6/examples/06-hud-states/hud_states/game.py:163-178 | the call's outcome: earlier candidates rejected, at most one coin appended, two draws per try |
| HudGame.Game.SpawnCoins | week6/examples/06-hud-states/hud_states/game.py:154-155 | n coin calls in a row make a run from the old cursor and group |
| HudGame.Game.SpawnHazard | week6/examples/06-hud-states/hud_states/game.py:180-193 | the call's outcome, with no check against other hazards |
| HudGame.Game.SpawnHazards | week6/examples/06-hud-states/hud_states/game.py:157-158 | n hazard calls in a row make a run |
| HudGame.Game.MovePlayerAxis | week6/examples/06-hud-states/hud_states/game.py:243-267 | the new position and rectangle are MoveAxis of the old ones |
| HudGame.Game.ResolveHits | week6/examples/06-hud-states/hud_states/game.py:255-267 | the loop leaves SnapAll of the rectangle, with the position on its centre along the axis |
| HudGame.Game.ApplyDamage | week6/examples/06-hud-states/hud_states/game.py:269-277 | the vitals become Damage of the old ones; game over iff the hit defeats the player |
| HudGame.Game.HandleEvent | week6/examples/06-hud-states/hud_states/game.py:195-221 | invariant kept; quit iff Escape; new mode NextMode; debug flips iff F1; a new level iff ResetsLevel; otherwise player, score, cursor and groups are unchanged |
| HudGame.Game.Update | week6/examples/06-hud-states/hud_states/game.py:279-299 | invariant kept. Outside play nothing changes. In play: `vel = move·speed`; the position is Travel; score +10 per collected coin; survivors plus one spawn call per collected coin; HP as in Frame; game over iff a touch defeats the ticked player |
| HudGame.Game.PlayFrame | week6/examples/06-hud-states/hud_states/game.py:284-299 | the play-state body of `update`, with the same postconditions |
| HudGame.Game.MovePlayer | week6/examples/06-hud-states/hud_states/game.py:284-289 | velocity from the input, position by Travel, and the timer ticked |
| HudGame.Game.Interact | week6/examples/06-hud-states/hud_states/game.py:291-299 | coins, then hazards; the invariant is back |
| HudGame.Game.CollectCoins | week6/examples/06-hud-states/hud_states/game.py:291-295 | exactly the overlapped coins are removed; +10 each; one spawn call per coin; coins stay apart and clear of the player |
| HudGame.Game.TouchHazards | week6/examples/06-hud-states/hud_states/game.py:297-299 | damage is applied once iff the player overlaps a hazard; HP stays in range; a live player while playing |
| HudGame.Game.HpColor | week6/examples/06-hud-states/hud_states/game.py:360-366 | bad at ≤ 30 % of max HP, warn at ≤ 60 %, ok above it, in whole numbers |

## Left out

- Drawing, fonts and the window are not modelled; they are I/O. This covers `draw`, `_draw_hud`, `_draw_text`, `_draw_bar`, the overlays, `_font`, `Palette` and the sprite images.
- `all_sprites` is not modelled: it is only used for drawing.
- The main loop and its clock are not modelled. `dt` is a parameter of `Game.Update`.
- `_read_move` is not modelled: it reads the keyboard. Its normalised vector is the `(moveX, moveY)` parameter of `Game.Update`, and the model places no condition on it.
- The QUIT event that Escape posts is returned as `quit` from `Game.HandleEvent`. Pygame's event queue is not modelled.
- `random.Random(6)` is not modelled: the Mersenne Twister is foreign code. It is an arbitrary stream of values, reduced into range by `RandInt`, so the proofs hold for every stream, the one of seed 6 included. The exact distribution is not modelled.
- Floating point is not modelled. Position, velocity, `dt` and the invincibility timer are real numbers, and `int(round(...))` is rounding to even on them. `_hp_color` divides by `float(max_hp)`; its comparisons are exact here. For whole HP values out of 100, the rounded quotient falls on the same side of 0.30 and 0.60 as the exact one.
- The `source_rect` argument of `_apply_damage` is passed but not used, as in the source.
- Coins, hazards and walls are plain rectangles, not sprite objects, and the groups are sequences in insertion order. Identity and the sprite-group bookkeeping are not modelled.

