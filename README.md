# Canvas background effects of ntsaa.github.io, modelled in Dafny

The site paints one animated background at a time on a full-window canvas.
`js/effects.js` is the effect controller: a closure over `enabled` and
`currentIndex` that destroys every effect before starting the chosen one.
`js/effect-manager.js` is the selector. It picks the Tết pool (fireworks,
sakura) between 25 December and 15 March and the normal pool (particles,
starfield, drift) otherwise. It starts a random entry and cycles through the
pool with a toggle button whose icon it keeps in step. Each file under
`js/effects/` is one effect object with `start`/`stop`, event handlers, and
an `animate` frame callback that moves its arrays of sparks, petals, motes
or stars one step and removes the spent ones.

The model has one Dafny module per file, plus `Host` for what the browser
supplies:

- **What the host provides.** `Math.random()` draws become an `Rng` value
  that a `Fair` precondition keeps in [0, 1). `requestAnimationFrame` and
  `cancelAnimationFrame` become a `Scheduler` value (pending ids, next id).
  Event listeners become sets of tokens.
- **How the code is modelled.**
  - Each effect object is a class whose fields are the source's fields.
  - Each frame callback is an explicit `OnFrame(id)` method.
  - Each per-frame rule (spark update, wrap, bounce, countdown, capture) is
    a function with lemmas about it, stated over all inputs.
  - The loops of `animate` are methods proved against those functions.
- **Host inputs.** Clock readings, window sizes and the results of
  `sin`/`cos`/`sqrt`/`hypot`/`atan2` are passed in as parameters. No
  property depends on their values beyond the ranges the source relies on.

The files are `host.dfy`, `controller.dfy`, `selector.dfy`,
`fireworks.dfy`, `drift.dfy`, `peach.dfy`, `singularity.dfy`,
`starfield.dfy`, `particles.dfy`, `sakura.dfy` and `ld_effect.dfy`.

## Model

| member | source | states |
|---|---|---|
| Host.RandomIndex | js/effects.js:33 | `Math.floor(Math.random() * n)` for a draw in [0, 1) is always an index into a list of n > 0 items |
| Host.JsRem | js/effects.js:32 | JavaScript's `%` takes the dividend's sign: the result lies in [0, n) for a non-negative dividend and in (-n, 0] for a negative one, and dividend = n * truncated quotient + result |
| Host.CycleReturns | js/effect-manager.js:100-105 | n presses of `i = (i + 1) % n` from an index in range return to that index |
| Host.Request | js/effects/fireworks.js:334 | `requestAnimationFrame` queues one new callback with an id that is not yet pending and is never 0 |
| Host.Drop | js/effects/fireworks.js:66-69 | `cancelAnimationFrame(id)` removes exactly that id from the queue and ignores ids not queued |
| Controller.DestroyCalls | js/effects.js:12-14 | the destroy loop makes at most one call per effect it visits |
| Controller.DestroyCallsExactly | js/effects.js:12-14 | the loop makes only destroy calls, and it calls effect k's destroy exactly when k is visited and its destroy is a function |
| Controller.LoadCalls | js/effects.js:11-17 | `loadEffect` first makes all the destroy calls; it then calls init of effect k exactly when effects are enabled, k is the index, k is in range and init is a function; that init is the last call |
| Controller.RunningSnoc | js/effects.js:11-17 | an init call adds its effect to the running set; a destroy call removes it |
| Controller.DestroyStep | js/effects.js:12-14 | one more turn of the destroy loop removes that effect from the running set, if it has a destroy |
| Controller.RunningAfterDestroys | js/effects.js:12-14 | after the destroy loop, whatever ran before, exactly the effects with a destroy function have stopped |
| Controller.LoadLeavesAtMostOne | js/effects.js:11-17 | when every effect has a destroy, `loadEffect` leaves at most one effect running, namely the chosen one |
| Controller.OffStopsAll | js/effects.js:19-24 | `toggleEffects(false)` with every destroy present leaves no effect running |
| Controller.NextThriceRestores | js/effects.js:32 | three presses of `nextEffect` over the three effects return to the starting index |
| Controller.EffectController.constructor | js/effects.js:2-39 | loading the script starts disabled at index 0 and runs the destroy loop once |
| Controller.EffectController.DestroyEach | js/effects.js:12-14 | the call log grows by exactly the destroy loop's calls |
| Controller.EffectController.LoadEffect | js/effects.js:11-17 | logs `LoadCalls`; it throws (a TypeError in the source) exactly when enabled with the index out of range; otherwise `currentIndex` becomes the index |
| Controller.EffectController.ToggleEffects | js/effects.js:19-28 | `enabled` becomes `on`; off runs the destroy loop and keeps the index; on reloads the current index |
| Controller.EffectController.NextEffect | js/effects.js:32 | loads `(currentIndex + 1) % 3` with JavaScript's remainder; from a non-negative index it never throws and stays in range |
| Controller.EffectController.RandomEffect | js/effects.js:33 | loads `floor(r * 3)` for a draw r in [0, 1), which is always a valid index |
| Controller.EffectController.GetCurrent | js/effects.js:35 | a name exactly when enabled with the index in range, and then it is that effect's name |
| Selector.IsTetSeason | js/effect-manager.js:23-37 | for a well-formed date, the season test holds exactly from 25 December 00:00 through 15 March 00:00, using the window that began the previous December when the month is January to March |
| Selector.SeasonExamples | js/effect-manager.js:23-37 | 15 January, 26 December and both window ends are in season; 1 July, 20 December, 1 April and one millisecond after 15 March 00:00 are not |
| Selector.PoolFor | js/effect-manager.js:16-53 | the Tet pool in season, the normal pool otherwise; the pool is never empty and every name in it has an icon |
| Selector.Icon | js/effect-manager.js:111-115 | a mapped name shows its icon; any other name shows the sparkle; the text is never empty |
| Selector.PoolIconsMapped | js/effect-manager.js:8-17 | every effect either pool can select has its own entry in the icon map |
| Selector.EffectManager.constructor | js/effect-manager.js:45-58 | picks the pool from the date and runs `init`: a random index; with a `setEffect` on the controller, one request for that effect, then `toggleEffects(true)`, its icon and the listeners; without one, `init` throws and nothing is requested, bound or shown |
| Selector.EffectManager.Init | js/effect-manager.js:64-73 | with an empty pool nothing happens; otherwise a random start, and it throws exactly when `setEffect` is missing, skipping `toggleEffects(true)`, the icon and the listeners; otherwise all three follow |
| Selector.EffectManager.RandomStart | js/effect-manager.js:90-94 | the index is `floor(r * length)` and in range; that effect is requested, or the call throws exactly when `setEffect` is missing |
| Selector.EffectManager.Next | js/effect-manager.js:100-105 | the index moves one entry on with wrap-around; that effect is requested and its icon shown, or, when `setEffect` is missing, the call throws with the request log and the icon unchanged |
| Selector.EffectManager.UpdateIcon | js/effect-manager.js:111-115 | the button shows the current effect's icon |
| Selector.EffectManager.Off | js/effect-manager.js:81-83 | the off button requests `toggleEffects(false)` and changes nothing else |
| Selector.NextReturnsToStart | js/effect-manager.js:100-105 | pressing the toggle button once per pool entry returns to the starting effect |
| Selector.InitEffectManager | js/effect-manager.js:123-132 | a manager is built exactly when the controller and both buttons exist, with the date's pool and a random index; it throws exactly when `setEffect` is missing, and then nothing was requested, bound or shown; otherwise its listeners are bound and the effect and `toggleEffects(true)` requested |
| LdEffect.CreateParticle | js/effects/ld-effect.js:19-26 | with fair draws a new particle lies on the canvas, its size is in [0.3, 1.5) and each speed is in [-0.75, 0.75) |
| LdEffect.Created | js/effects/ld-effect.js:54-59 | `createParticles` yields exactly n particles |
| LdEffect.CreatedAt | js/effects/ld-effect.js:54-59 | particle k of a fresh set is the k-th one created, and with fair draws it starts on the canvas |
| LdEffect.Wrap | js/effects/ld-effect.js:33-36 | one coordinate's wrap-around: a value in range is kept, below 0 it jumps to the far edge, beyond the far edge it jumps to 0, and the result is always in [0, edge] |
| LdEffect.Update | js/effects/ld-effect.js:28-37 | `update()` moves by the speed and wraps each coordinate; the particle stays on the canvas and its other fields are unchanged |
| LdEffect.UpdateAll | js/effects/ld-effect.js:68-71 | the frame's update keeps the number of particles |
| LdEffect.UpdateAllAt | js/effects/ld-effect.js:68-71 | after a frame, particle k is the update of the old particle k |
| LdEffect.UpdateAllInBounds | js/effects/ld-effect.js:28-71 | after a frame every particle is on the canvas, whatever its speed |
| LdEffect.LdScene.constructor | js/effects/ld-effect.js:9-16 | a new scene has the window's size, no particles and no frame |
| LdEffect.LdScene.Resize | js/effects/ld-effect.js:76-81 | `resize()` takes the window's new size |
| LdEffect.LdScene.CreateParticles | js/effects/ld-effect.js:54-59 | the array is emptied and refilled with exactly 500 new particles, in draw order |
| LdEffect.LdScene.UpdateParticles | js/effects/ld-effect.js:68-71 | each particle is updated in its slot, so the array becomes the frame's update of the old one |
| LdEffect.Window.constructor | js/effects/ld-effect.js:85-90 | the page starts with no frame pending, the flag down, no cleanup and no resize listeners |
| LdEffect.Window.Init | js/effects/ld-effect.js:2-95 | without a canvas, nothing happens; otherwise a fresh scene whose resize listener is added, the flag cleared, 500 particles updated once by the first frame, one new frame requested and the cleanup installed for this scene |
| LdEffect.Window.Animate | js/effects/ld-effect.js:61-74 | with the flag up, nothing changes; otherwise every particle is updated and exactly one new frame is requested |
| LdEffect.Window.OnFrame | js/effects/ld-effect.js:61-74 | a firing frame is consumed; with the flag up, none is requested again, so the chain ends |
| LdEffect.Window.Destroy | js/effects/ld-effect.js:90-102 | with a cleanup installed, the flag is raised, that scene's latest frame is cancelled and the cleanup is deleted; otherwise nothing happens; resize listeners are never removed |
| LdEffect.InitTwiceDestroy | js/effects/ld-effect.js:83-102 | after two inits and one destroy, the first scene's chain ends at its next frame because of the flag; after a second destroy no frame is pending, the flag is up and both resize listeners remain |
| Particles.InitialCount | js/effects/particles.js:94 | the field holds 80 particles exactly when the window is narrower than 600, otherwise 190 |
| Particles.MaxDist | js/effects/particles.js:113 | the connection distance is 70 exactly when the window is narrower than 600, otherwise 110 |
| Particles.CreateParticle | js/effects/particles.js:98-104 | given fair draws, a new particle's velocity components lie in [-0.45, 0.45) and its radius in [1, 2.2) |
| Particles.Created | js/effects/particles.js:92-106 | `initParticles` builds exactly `count` particles |
| Particles.CreatedAt | js/effects/particles.js:96-105 | particle k is the k-th `createParticle` result; with fair draws its velocity and radius stay in range |
| Particles.Bounce | js/effects/particles.js:118-122 | the particle moves by its velocity; a velocity component flips exactly when the new position is at or past that edge, and otherwise stays; speeds are kept |
| Particles.PushFactor | js/effects/particles.js:130-133 | inside the repulsion radius, away from the cursor's exact position, the push strength is strictly between 0 and 1 |
| Particles.ParticleStep | js/effects/particles.js:116-138 | position and radius are those of the bounce; without a nearby cursor nothing else changes; with one, each velocity component gains the heading times the push times 0.1 |
| Particles.StepAll | js/effects/particles.js:116-139 | the update loop keeps the number of particles |
| Particles.StepAllAt | js/effects/particles.js:116-139 | particle k after the loop is the one-particle step of particle k before it |
| Particles.Link | js/effects/particles.js:150-167 | one pair gives at most one line; there is a line exactly when the pair is closer than `maxDist`, and it carries that distance's opacity |
| Particles.Alpha | js/effects/particles.js:159 | a line between particles closer than `maxDist` has opacity in (0, 0.3] |
| Particles.RowShape | js/effects/particles.js:148-168 | the inner loop for particle i yields only pairs (i, k) with i < k, in increasing k |
| Particles.RowComplete | js/effects/particles.js:148-168 | the inner loop for particle i joins i to every close later particle and to no other |
| Particles.LinesBounds | js/effects/particles.js:147-169 | after n outer turns every line joins some i < n to a later particle |
| Particles.LinesOrdered | js/effects/particles.js:147-169 | the lines come in the order the double loop visits the pairs |
| Particles.LinesComplete | js/effects/particles.js:147-169 | after n outer turns, a pair with first index below n has a line exactly when it is close |
| Particles.ConnectionsExactly | js/effects/particles.js:147-169 | all of the double loop's lines come in visiting order, join i < j inside the array, and join exactly the pairs closer than `maxDist` |
| Particles.ConnectRow | js/effects/particles.js:148-168 | the inner loop computes row i of the connection lines |
| Particles.Connections | js/effects/particles.js:147-169 | the double loop computes exactly the connection lines |
| Particles.ParticlesEffect.constructor | js/effects/particles.js:4-16 | the effect starts with no particles, no frame pending, no listeners and no generation |
| Particles.ParticlesEffect.Start | js/effects/particles.js:18-51 | without a canvas nothing changes; otherwise a new generation of three listeners is added to the old ones, the size is the window's, the particles are the width's count of fresh ones moved by one frame, and one new frame is queued beside any already pending; the mouse is untouched |
| Particles.ParticlesEffect.Open | js/effects/particles.js:48-50 | the size is the window's, the particles are the width's count of fresh ones moved by one frame, and one new frame is queued beside those already pending |
| Particles.ParticlesEffect.Launch | js/effects/particles.js:49-50 | `initParticles` then the first `animate` leave `count` fresh particles moved by one frame, and queue one new frame |
| Particles.ParticlesEffect.Stop | js/effects/particles.js:53-76 | only the latest frame id is cancelled and only the latest generation's listeners are removed; the particles are cleared and the cursor forgotten; nothing else changes |
| Particles.ParticlesEffect.OnMouseMove | js/effects/particles.js:35-38 | the cursor is recorded at the event's position |
| Particles.ParticlesEffect.OnMouseLeave | js/effects/particles.js:40-43 | the cursor is forgotten |
| Particles.ParticlesEffect.OnResize | js/effects/particles.js:78-90 | the size becomes the window's |
| Particles.ParticlesEffect.InitParticles | js/effects/particles.js:92-106 | the particles become exactly the `count` created ones |
| Particles.ParticlesEffect.UpdateParticles | js/effects/particles.js:116-138 | each particle is replaced by its one-frame step |
| Particles.ParticlesEffect.Animate | js/effects/particles.js:108-172 | the particles take one step, the lines drawn are exactly the connections of the moved particles, and one new frame is queued |
| Particles.ParticlesEffect.OnFrame | js/effects/particles.js:108-172 | a frame callback leaves the queue and queues its successor; the particles become `StepAll` of the old ones and the lines are the connections of the moved set |
| Particles.StartTwiceStopOnce | js/effects/particles.js:18-76 | with no start guard, two starts and one stop leave the first loop running and the first generation's listeners attached |
| Sakura.InitialCount | js/effects/sakura.js:99 | 25 petals exactly when the window is narrower than 600, otherwise 45 |
| Sakura.CreatePetal | js/effects/sakura.js:66-95 | a draw below 0.83 gives a single petal with one slot index below 5, otherwise the full five-slot bloom; with fair draws the size matches the kind and the fall speed is in [0.5, 1.8); a later petal starts at y = -30, an initial one on the canvas; the spin range depends on the kind |
| Sakura.Created | js/effects/sakura.js:97-105 | `initPetals` builds exactly `count` petals |
| Sakura.CreatedOnCanvas | js/effects/sakura.js:97-105 | petal k is the k-th initial `createPetal` result, well shaped and vertically on the canvas |
| Sakura.MovePetal | js/effects/sakura.js:138-141 | a frame moves the petal down by its speed and sideways by the sway times its amplitude, advances its sway angle and rotation, and changes nothing else |
| Sakura.PetalStep | js/effects/sakura.js:136-145 | a petal still above h + 40 after moving is the moved petal; one below is replaced by a new petal at y = -30; either way it ends no lower than h + 40 and keeps a valid shape |
| Sakura.StepAll | js/effects/sakura.js:136-162 | the frame loop keeps the number of petals |
| Sakura.StepAllAt | js/effects/sakura.js:136-162 | petal k after the loop is the one-petal step of petal k |
| Sakura.StepAllKeeps | js/effects/sakura.js:136-162 | after a frame every petal is well shaped if all were before, and none is lower than h + 40 |
| Sakura.SakuraEffect.constructor | js/effects/sakura.js:4-13 | the effect starts with no petals, no frame pending and no listener |
| Sakura.SakuraEffect.Start | js/effects/sakura.js:15-35 | without a canvas nothing changes; otherwise one more resize listener is added, the petals are the first frame's step of a fresh initial set, and one new frame is queued beside any still pending |
| Sakura.SakuraEffect.Launch | js/effects/sakura.js:32-34 | resize, `initPetals` and the first animate: the size is the window's, the petals are one step of the created set, one new frame is queued |
| Sakura.SakuraEffect.Stop | js/effects/sakura.js:37-50 | only the latest frame id is cancelled and only the latest resize listener removed; the petals are emptied; nothing else changes |
| Sakura.SakuraEffect.OnResize | js/effects/sakura.js:52-64 | the logical size becomes the window's |
| Sakura.SakuraEffect.InitPetals | js/effects/sakura.js:97-105 | the petals become exactly the created ones, all well shaped |
| Sakura.SakuraEffect.MovePetals | js/effects/sakura.js:136-162 | each petal is replaced by its one-frame step |
| Sakura.SakuraEffect.Animate | js/effects/sakura.js:132-165 | one step of every petal, none left lower than h + 40, the count kept, one new frame queued |
| Sakura.SakuraEffect.OnFrame | js/effects/sakura.js:132-165 | a frame callback leaves the queue and queues its successor; the petals become `StepAll` of the old ones, none below h + 40 |
| Peach.CreateFallPetal | js/effects/peach.js:94-160 | a new falling petal starts at y = -30; a draw below 0.8 gives one slot index below 5 and size 5 to 11, otherwise the full bloom and size 8 to 16 |
| Peach.CreateBurstPiece | js/effects/peach.js:162-184 | a burst piece is a single slot below 5 at its parent's position, 0.55 of its parent's size |
| Peach.Pieces | js/effects/peach.js:210-212 | the piece loop pushes exactly `n` pieces |
| Peach.PiecesShape | js/effects/peach.js:162-184 | every pushed piece is a single-slot burst at the parent's place, 0.55 of its size |
| Peach.PieceCount | js/effects/peach.js:208 | a tap shatters a bloom into four to eight pieces |
| Peach.NewFalls | js/effects/peach.js:256-259 | the accumulator loop pushes exactly `n` petals |
| Peach.NewFallsFall | js/effects/peach.js:256-259 | every petal it pushes is a falling petal at y = -30 |
| Peach.HitIndex | js/effects/peach.js:196-206 | the backward search over `ps[..i]` finds the highest-index hittable petal (a falling five-slot bloom within 1.4 sizes of the tap), or reports that none is hittable |
| Peach.FallCount | js/effects/peach.js:242-243 | the number of falling petals is at most the number of petals |
| Peach.DecayTarget | js/effects/peach.js:235-240 | the target stays put until 1.5 s after the last hit; then it decays but stays between 40 and its old value |
| Peach.NextSpawnRate | js/effects/peach.js:245-252 | with nothing missing the spawn rate is 0; otherwise it is ramped by at most 12 per second and capped at 0.8 of the gap; it never goes negative |
| Peach.Intro | js/effects/peach.js:231-232 | the intro factor lies in [0, 1] and is 1 after three seconds |
| Peach.Accrued | js/effects/peach.js:254 | the accumulator never decreases while rates, time and intro are non-negative |
| Peach.MovePetal | js/effects/peach.js:303-306 | a frame moves a petal down by its speed and keeps its kind, slots and size |
| Peach.Remaining | js/effects/peach.js:299-311 | the backward pass keeps at most the petals it visits, and none it keeps is lower than h + 40 |
| Peach.RemainingStep | js/effects/peach.js:299-311 | one turn of the backward pass, moving petal i and splicing it out when too low, extends the finished suffix |
| Peach.FrameStep | js/effects/peach.js:230-311 | one frame of the density controller and petal pass: the clock becomes `now`; the target stays within [40, its old value] and does not move until 1.5 s after the last hit; the rate is 0 once the falling petals reach the target; the rate is non-negative and the accumulator in [0, 1); no petal is lower than h + 40 |
| Peach.FrameStepFrom | js/effects/peach.js:290-311 | the frame step is the density controller followed by the petal pass |
| Peach.FirstFrameKeepsReset | js/effects/peach.js:50-58 | the first frame after the reset, at the same instant, leaves the reset state as it was: nothing is owed, so no petal is spawned |
| Peach.PeachEffect.constructor | js/effects/peach.js:4-29 | the effect starts with no frame, no petals, no listeners, target 40 and a zero spawn rate and accumulator |
| Peach.PeachEffect.Start | js/effects/peach.js:33-59 | with a frame already scheduled, or without a canvas, nothing changes; otherwise the resize and tap listeners are attached, the size is the window's, the intro clock starts at `now`, and after the first frame the density state is the reset one: no petals, rate 0, accumulator 0, target 40, clock `now` |
| Peach.PeachEffect.Launch | js/effects/peach.js:50-58 | the reset of the petals and the density controller, then the first frame: the density state is the reset one and exactly one frame is pending |
| Peach.PeachEffect.Stop | js/effects/peach.js:61-76 | no frame is pending or recorded, no listener remains, the petals are emptied; nothing else changes, so the density controller, clocks and size are left as they were |
| Peach.PeachEffect.OnResize | js/effects/peach.js:78-92 | the size becomes the window's |
| Peach.PeachEffect.HandleClick | js/effects/peach.js:188-228 | a tap that hits nothing changes nothing; a hit replaces the hit bloom in place by a new falling petal, appends its pieces, adds one more falling petal while fewer than 280, raises the target by 40 up to 280 and records the time |
| Peach.PeachEffect.FindHit | js/effects/peach.js:196-206 | the search loop returns the specified hit index |
| Peach.PeachEffect.PushPieces | js/effects/peach.js:210-212 | the pieces are appended after the existing petals |
| Peach.PeachEffect.Shatter | js/effects/peach.js:208-217 | the hit petal is replaced in place and its pieces appended; the target rises by 40 up to 280 |
| Peach.PeachEffect.RegulateDensity | js/effects/peach.js:230-260 | the target decays as specified, the spawn rate follows the gap to the falling count, and one falling petal is pushed per whole unit owed, leaving the fraction |
| Peach.PeachEffect.Steer | js/effects/peach.js:231-254 | the density arithmetic: the three new values, with the target kept in [40, 280] and the rate and accumulator non-negative |
| Peach.PeachEffect.SpawnOwed | js/effects/peach.js:256-259 | the loop pushes floor(owed) falling petals and leaves an accumulator in [0, 1) |
| Peach.PeachEffect.Regulate | js/effects/peach.js:290-296 | the clock and `regulateDensity(dt)`: with the petal pass still to come, the state is `FrameStep` of the old one |
| Peach.PeachEffect.MovePetals | js/effects/peach.js:299-311 | the petals become the specified backward pass: moved, the too-low ones removed, order kept |
| Peach.PeachEffect.Animate | js/effects/peach.js:288-330 | the density state becomes `FrameStep` of the old one and exactly one frame is pending, under an id not handed out before |
| Peach.PeachEffect.Advance | js/effects/peach.js:290-311 | the clock, the density controller and the petal pass together are `FrameStep` of the old density state |
| Peach.PeachEffect.OnFrame | js/effects/peach.js:288-330 | the fired id leaves the queue, the density state becomes `FrameStep` of the old one, and one frame with a new id is pending |
| Drift.InitialCount | js/effects/drift.js:129-131 | the initial population is `floor(w * h * density)` capped at 900: never above either, and exactly the floor when under the cap |
| Drift.CreateMote | js/effects/drift.js:91-103 | a new mote is at least 0.65 in size and, with fair draws, lies on the canvas |
| Drift.SpawnFromEdge | js/effects/drift.js:105-124 | an edge mote is at least 0.65 in size, lies on one of the four edges and, with fair draws, within the canvas |
| Drift.Backfill | js/effects/drift.js:188-191 | the top-up adds `missing` motes, none when `missing` is not positive |
| Drift.BackfillSnoc | js/effects/drift.js:189-191 | one more turn of the top-up loop appends one edge mote |
| Drift.BackfillShape | js/effects/drift.js:188-191 | every mote of the top-up is at least 0.65 in size and on an edge |
| Drift.ShardsOf | js/effects/drift.js:167-181 | an exploded mote leaves `3 + floor(2 * size)` fragments |
| Drift.ShardsOfFresh | js/effects/drift.js:169-181 | each fragment starts at the mote's position with full life `20 + 10 * size` |
| Drift.Kept | js/effects/drift.js:157-186 | the survivors are at most the motes there were |
| Drift.KeptExactly | js/effects/drift.js:159-186 | a mote survives exactly when it is one of the motes and not strictly inside the circle |
| Drift.ShardsFresh | js/effects/drift.js:159-184 | every fragment an explosion pushes starts at full life, at least 20 |
| Drift.PartitionSnoc | js/effects/drift.js:159-184 | visiting one more mote either keeps it or appends its fragments |
| Drift.ShardCount | js/effects/drift.js:159-184 | the fragments pushed number the sum over caught motes of their piece counts |
| Drift.ShatterMote | js/effects/drift.js:169-181 | the inner loop pushes exactly the fragments of the caught mote, in order |
| Drift.Partition | js/effects/drift.js:157-186 | the outer loop returns exactly the survivors, in order, and the fragments, mote by mote |
| Drift.TopUp | js/effects/drift.js:188-191 | the top-up loop returns exactly `missing` edge motes |
| Drift.RefillSized | js/effects/drift.js:183-191 | after an explosion every mote, survivor or new, is at least 0.65 in size |
| Drift.WellFiresOnce | js/effects/drift.js:146-152 | a well with `life` frames left explodes exactly once, on frame `life`, and is dropped then |
| Drift.NewWellFiresOnFrame320 | js/effects/drift.js:141-152 | a clicked well explodes on its 320th frame and not before |
| Drift.LiveWells | js/effects/drift.js:151 | the filter keeps exactly the wells with life left |
| Drift.LiveFragments | js/effects/drift.js:259 | the filter keeps exactly the fragments with life left |
| Drift.FragmentCountsDown | js/effects/drift.js:253-260 | a fragment loses one life per frame and keeps its full life value |
| Drift.Blast | js/effects/drift.js:154-192 | an explosion keeps every mote at least 0.65 in size, only appends fragments, and brings a population of at most `count` back to `count` |
| Drift.WellsPass | js/effects/drift.js:146-152 | the wells loop, well by well in index order, explodes well k exactly when its aged life is 0; it keeps sizes, only appends fragments and keeps a population of `count` |
| Drift.WellsPassQuiet | js/effects/drift.js:146-152 | a frame in which no well fires leaves the motes and fragments as they were |
| Drift.WellsPassSnoc | js/effects/drift.js:147-150 | well n explodes in the pass exactly when `WellFires` counts a firing for it this frame |
| Drift.Moved | js/effects/drift.js:308-311 | every mote takes its own step; the count is kept |
| Drift.MovedGrown | js/effects/drift.js:308-311 | moving keeps every mote at least 0.65 in size |
| Drift.Aged | js/effects/drift.js:147-148 | well k of the result is well k one frame older |
| Drift.Faded | js/effects/drift.js:254-257 | fragment k of the result is fragment k moved and one life shorter |
| Drift.Drifted | js/effects/drift.js:308-311 | the motes move; wells and fragments are untouched; sizes stay at least 0.65 |
| Drift.Frame | js/effects/drift.js:308-315 | a frame keeps every mote at least 0.65 in size and a population of `count`, leaves the aged wells with life left, and only fragments with life left |
| Drift.Created | js/effects/drift.js:127-139 | the initial population has `n` motes, mote i being the i-th created one |
| Drift.FrameFrom | js/effects/drift.js:308-315 | the frame is the three passes one after another |
| Drift.Pull | js/effects/drift.js:206-222 | a well inside whose radius the mote lies marks it held and moves it; any other well leaves it alone |
| Drift.PullFrom | js/effects/drift.js:206-222 | once one well holds a mote it stays held for the rest of the wells loop |
| Drift.Repel | js/effects/drift.js:225-237 | the mouse's push leaves a held mote, or any mote without a mouse, unchanged |
| Drift.Clamp | js/effects/drift.js:199-201 | a speed is clamped to [-1.2, 1.2] and unchanged when already inside |
| Drift.Wrap | js/effects/drift.js:247-250 | a coordinate wraps into [0, limit] and is unchanged when already inside |
| Drift.Glide | js/effects/drift.js:196-250 | after the jitter, clamp and drift the speeds are in range, the mote is on the canvas, and its size, depth and hue offset are kept |
| Drift.MoteStep | js/effects/drift.js:194-251 | `updateParticle` leaves the speeds in range and the mote on the canvas, and keeps its size, depth and hue offset |
| Drift.MouseIgnoredInWell | js/effects/drift.js:203-237 | for a mote a well holds, where the mouse is, or whether there is one, makes no difference |
| Drift.MousePushesFree | js/effects/drift.js:225-236 | a mote no well holds, within 120 of the mouse, is pushed straight away from it by a positive factor |
| Drift.DriftEffect.constructor | js/effects/drift.js:4-29 | the effect starts stopped, with no frame, motes, wells, fragments, listeners or mouse |
| Drift.DriftEffect.Start | js/effects/drift.js:31-57 | a second start changes nothing; a first start marks the effect running even without a canvas; with one it attaches the three listeners, takes the window's size, and the scene becomes the first frame of the created population, with the mouse unchanged and exactly one frame pending |
| Drift.DriftEffect.Launch | js/effects/drift.js:54-56 | `resize()`, `initSingularity()` and the first `animate()`: the size is the window's, the count `InitialCount`, and the scene the first `Frame` of the created motes |
| Drift.DriftEffect.Populate | js/effects/drift.js:54-55 | the size is the window's and the motes are exactly the created population |
| Drift.DriftEffect.Stop | js/effects/drift.js:59-74 | nothing changes unless running; otherwise no frame is pending, the listeners are detached and the motes, wells and fragments emptied, with size, mouse and context untouched |
| Drift.DriftEffect.OnResize | js/effects/drift.js:76-88 | the size becomes the window's and `isMobile` says whether it is narrower than 600 |
| Drift.DriftEffect.OnMove | js/effects/drift.js:43-47 | the mouse is recorded |
| Drift.DriftEffect.OnClick | js/effects/drift.js:141-144 | a click appends one fresh well |
| Drift.DriftEffect.InitSingularity | js/effects/drift.js:127-139 | the initial count is recorded and the motes are exactly `Created`: mote i is the i-th created mote |
| Drift.DriftEffect.ExplodeNear | js/effects/drift.js:154-192 | the motes become the survivors in order followed by the edge top-up; the fragments gain the pushed ones; together that is `Blast`; the population is back to `initCount` unless more survived; every mote keeps a size of at least 0.65 |
| Drift.DriftEffect.UpdateMote | js/effects/drift.js:194-251 | the per-mote loop over the wells computes the specified step |
| Drift.DriftEffect.UpdateMotes | js/effects/drift.js:308-311 | the motes become `Moved`: mote i becomes the step of mote i |
| Drift.DriftEffect.AgeWellAt | js/effects/drift.js:147-150 | well i ages by one frame; when its aged life is 0 the motes and fragments become `Blast` at that well (the survivors plus the edge top-up to `initCount`; the old fragments plus the new ones), otherwise they are unchanged |
| Drift.DriftEffect.UpdateWells | js/effects/drift.js:146-152 | the wells become the aged wells with life left, and the motes and fragments are the `WellsPass` over all old wells in index order |
| Drift.DriftEffect.CountDownWells | js/effects/drift.js:147-150 | the wells are all aged by one frame, and the motes and fragments are the `WellsPass` over the old wells |
| Drift.DriftEffect.MoveMotes | js/effects/drift.js:308-311 | the scene becomes `Drifted` of the old one under the current wells and mouse |
| Drift.DriftEffect.AgeAll | js/effects/drift.js:313-314 | the wells, the explosions and the fragments of a frame: the scene after `WellsPass` with the aged live wells and the faded live fragments |
| Drift.DriftEffect.Schedule | js/effects/drift.js:317 | exactly one frame is pending afterwards, under an id not handed out before |
| Drift.DriftEffect.UpdateFragments | js/effects/drift.js:253-260 | the fragments become the moved, aged fragments with life left |
| Drift.DriftEffect.Animate | js/effects/drift.js:298-318 | nothing once stopped; otherwise the scene becomes `Frame` of the old scene and exactly one new frame is pending, with an id not used before |
| Drift.DriftEffect.Step | js/effects/drift.js:308-315 | the motes, wells and fragments become `Frame` of the old ones |
| Drift.DriftEffect.OnFrame | js/effects/drift.js:298-318 | the fired id leaves the queue; once stopped nothing else changes; otherwise the scene becomes `Frame` of the old scene and one frame with a new id is pending |
| Singularity.CreateMote | js/effects/singularity.js:114-130 | a new mote is free, not bursting and not immune; with fair draws its base speed is in [0.6, 1) and its radius in [1, 2.2) |
| Singularity.InitialCount | js/effects/singularity.js:106 | 80 motes exactly when the window is narrower than 600, otherwise 190 |
| Singularity.Decay | js/effects/singularity.js:191-197 | a bursting mote's velocity is scaled by 0.986 and it keeps bursting exactly while its new speed is at least 1.2 times its base speed; other motes are unchanged; position and capture are kept |
| Singularity.Attract | js/effects/singularity.js:199-226 | motes that may not be pulled are unchanged; a mote ends captured exactly when it was, or could be pulled and was within 18 of the mouse; a new capture pins it on the mouse with zero velocity |
| Singularity.Advance | js/effects/singularity.js:228-235 | a captured mote sits on the mouse; a free one moves by its velocity |
| Singularity.Normalize | js/effects/singularity.js:167-176 | a standing mote is unchanged; the nudge touches only the velocity |
| Singularity.Bounce | js/effects/singularity.js:241-242 | each velocity component flips exactly when the mote is at or past that edge; nothing else changes |
| Singularity.MoteStepRules | js/effects/singularity.js:189-242 | after its update a mote is captured exactly when it was or it was pulled within 18 of the mouse; a captured mote is on the mouse; no mote starts bursting; captured motes stay still |
| Singularity.CapturedStaysPinned | js/effects/singularity.js:189-242 | a captured, still mote only follows the mouse |
| Singularity.BurstSlows | js/effects/singularity.js:191-193 | a mote that keeps bursting loses exactly 1.4% of each velocity component's magnitude per frame |
| Singularity.Released | js/effects/singularity.js:145-157 | a release frees the mote, marks it bursting and immune for 5 s, and leaves it where it was |
| Singularity.StepAll | js/effects/singularity.js:189-251 | the mote loop keeps the number of motes |
| Singularity.StepAllAt | js/effects/singularity.js:189-251 | mote k after the loop is the update of mote k |
| Singularity.StepAllStill | js/effects/singularity.js:189-251 | if every captured mote was still before the loop, every captured mote is still after it |
| Singularity.Releases | js/effects/singularity.js:136-160 | a burst schedules at most one release per mote |
| Singularity.QueueReleases | js/effects/singularity.js:141-160 | the `forEach` loop queues the releases in index order |
| Singularity.ReleasesTasks | js/effects/singularity.js:141-160 | the releases contain no cooldown task and each names an existing mote |
| Singularity.ReleasesExactly | js/effects/singularity.js:136-160 | a release for mote k is scheduled exactly when k is in range and mote k is captured |
| Singularity.RemoveTask | js/effects/singularity.js:145-164 | firing one pending timer removes exactly that task from the counts |
| Singularity.CapturedCount | js/effects/singularity.js:228-229 | the captured count is at most the number of motes |
| Singularity.SomeCaptured | js/effects/singularity.js:136-137 | a non-empty release list means some mote is captured |
| Singularity.NoneCaptured | js/effects/singularity.js:136-137 | an empty release list means no mote is captured |
| Singularity.Created | js/effects/singularity.js:104-112 | the initial population has `n` motes, mote k being the k-th created one |
| Singularity.Tick | js/effects/singularity.js:187-255 | a frame keeps the number of motes; the cooldown is on afterwards exactly when it was or at least 100 motes are captured after the update; under a cooldown the timers are untouched; it keeps the timers agreeing with the flag and captured motes still |
| Singularity.TickBurst | js/effects/singularity.js:132-165 | a burst frame keeps the pending timeouts, then queues one release for exactly each captured mote, then the cooldown's end |
| Singularity.TickUnderCooldown | js/effects/singularity.js:253-255 | under a running cooldown a frame neither bursts nor touches the timers |
| Singularity.SingularityEffect.constructor | js/effects/singularity.js:4-28 | the effect starts stopped, with no motes and no timers |
| Singularity.SingularityEffect.Start | js/effects/singularity.js:30-67 | a second start changes nothing; a first start marks the effect running even without a canvas; with one it attaches four listeners, takes the window's size, and the motes, timers and cooldown are the first `Tick` of the width-dependent created population with no timers, with exactly one frame pending |
| Singularity.SingularityEffect.Open | js/effects/singularity.js:38-66 | once a canvas is found: the four listeners, the window's size, and the first `Tick` of the created population with one frame pending |
| Singularity.SingularityEffect.Launch | js/effects/singularity.js:65-66 | `initSingularity()` then `animate()`: the state is the first `Tick` of the created population and one frame is pending |
| Singularity.SingularityEffect.InitSingularity | js/effects/singularity.js:104-112 | the motes are exactly `Created`: mote k is the k-th created mote, `count` in all |
| Singularity.SingularityEffect.Stop | js/effects/singularity.js:69-90 | nothing changes unless running; otherwise the frame, the listeners and the timers are gone; it throws exactly when no canvas was ever found, and then the motes, mouse and cooldown are kept; when it does not throw they are reset |
| Singularity.SingularityEffect.OnResize | js/effects/singularity.js:92-102 | the size becomes the window's |
| Singularity.SingularityEffect.OnMouseMove | js/effects/singularity.js:42-45 | the mouse is recorded |
| Singularity.SingularityEffect.OnMouseLeave | js/effects/singularity.js:47-50 | the mouse is forgotten |
| Singularity.SingularityEffect.OnClick | js/effects/singularity.js:52-57 | without a mouse, under cooldown, or with nothing captured a click does nothing; otherwise the cooldown starts and the releases, then the cooldown's end, are scheduled |
| Singularity.SingularityEffect.TriggerBurst | js/effects/singularity.js:132-165 | nothing under cooldown or with nothing captured; otherwise the cooldown starts and one release per captured mote, then the cooldown's end, are appended to the pending timers |
| Singularity.SingularityEffect.FireTimer | js/effects/singularity.js:145-164 | the fired task leaves the timers; the cooldown task ends the cooldown; a release frees its mote and changes no other |
| Singularity.SingularityEffect.UpdateMotes | js/effects/singularity.js:189-251 | every mote is replaced by its update, in place |
| Singularity.SingularityEffect.CountCaptured | js/effects/singularity.js:228-229 | the counter is the number of captured motes |
| Singularity.SingularityEffect.Animate | js/effects/singularity.js:178-304 | nothing once stopped; otherwise the motes, timers and cooldown become `Tick` of the old ones, and exactly one frame is pending under a new id |
| Singularity.SingularityEffect.Step | js/effects/singularity.js:187-255 | the motes, timers and cooldown become `Tick` of the old ones |
| Singularity.SingularityEffect.Schedule | js/effects/singularity.js:303 | exactly one frame is pending afterwards, under an id not handed out before |
| Singularity.SingularityEffect.MoveAll | js/effects/singularity.js:189-251 | every mote takes its update, keeping captured motes still |
| Singularity.SingularityEffect.MaybeBurst | js/effects/singularity.js:253-255 | the burst fires exactly when at least 100 motes are captured and no cooldown runs |
| Singularity.SingularityEffect.OnFrame | js/effects/singularity.js:178-304 | the fired id leaves the queue, the state becomes `Tick` of the old one, and one frame with a new id is pending |
| Starfield.LayersConfig | js/effects/starfield.js:100-119 | three layers with speeds 6, 3 and 1.5, each with a positive radius range |
| Starfield.StarCount | js/effects/starfield.js:104-114 | the layers hold 270 stars together when the canvas is narrower than 600, otherwise 540 |
| Starfield.Between | js/effects/starfield.js:132 | a fair draw placed in a range lands inside it |
| Starfield.CreateStar | js/effects/starfield.js:128-137 | a star moves with its layer's speed; with fair draws its depth is in [0, w], its radius in its layer's range, and it twinkles within its band |
| Starfield.LayerStars | js/effects/starfield.js:127-138 | the inner loop creates exactly the layer's count of stars |
| Starfield.Layered | js/effects/starfield.js:121-140 | `initStars` creates as many stars as the layers' counts add up to |
| Starfield.LayeredStars | js/effects/starfield.js:121-140 | every initial star has depth in [0, w], twinkles, and has the radius range of the layer it moves with |
| Starfield.LayeredTwinkles | js/effects/starfield.js:121-140 | every initial star twinkles within its band |
| Starfield.LayerLoop | js/effects/starfield.js:127-138 | the inner loop computes exactly that layer's stars |
| Starfield.CreateShooting | js/effects/starfield.js:144-155 | a shooting star starts at full alpha; with a fair draw its speed is in [8, 13) on a narrow canvas and [15, 25) otherwise |
| Starfield.StarStep | js/effects/starfield.js:167-184 | the depth drops by the layer speed and restarts at w on reaching 0; alpha moves by the change, whose magnitude is kept; speed and radius are kept |
| Starfield.DepthPositive | js/effects/starfield.js:169-175 | on a non-empty canvas every star's depth stays positive, so the perspective divide `500 / z` is defined |
| Starfield.TwinkleKeeps | js/effects/starfield.js:180-183 | a twinkling star stays within its band after a frame |
| Starfield.StepStars | js/effects/starfield.js:167-184 | the star loop keeps the number of stars |
| Starfield.StepStarsAt | js/effects/starfield.js:167-184 | star k after the loop is the update of star k |
| Starfield.StepEach | js/effects/starfield.js:167-184 | the loop computes the specified update of every star |
| Starfield.StepStarsKeep | js/effects/starfield.js:167-184 | after a frame every star still twinkles and, on a non-empty canvas, has positive depth |
| Starfield.ShootingStep | js/effects/starfield.js:190-192 | a shooting star loses 0.02 alpha per frame and keeps its speed |
| Starfield.ShootingLives50 | js/effects/starfield.js:154-196 | from full alpha a shooting star's alpha after n frames is 1 - 0.02 n, so it is visible for 49 frames and removed on the 50th |
| Starfield.Glowing | js/effects/starfield.js:186-197 | the backward pass keeps at most the stars it visits, and only ones still visible |
| Starfield.GlowingStep | js/effects/starfield.js:186-197 | one turn of the backward pass, moving star i and splicing it out when faded, extends the finished suffix |
| Starfield.StarfieldEffect.constructor | js/effects/starfield.js:4-21 | the effect starts with no frame, no stars and no timer |
| Starfield.StarfieldEffect.Start | js/effects/starfield.js:28-55 | with a frame scheduled, or without a canvas, nothing changes; otherwise both listeners are attached, the size is the window's, the stars are the first frame's `StepStars` of the second `Layered` starfield (270 or 540 stars), the shooting stars are the first frame's `Glowing` pass after one new shooting star, the timer is armed and exactly one frame is pending |
| Starfield.StarfieldEffect.Launch | js/effects/starfield.js:33-54 | after the listeners, the starfield, the first shooting star and the first frame: the stars are `StepStars` of the `Layered` starfield, the shooting stars `Glowing` of the old ones plus the new one, and one frame is pending |
| Starfield.StarfieldEffect.Prepare | js/effects/starfield.js:33-52 | the size is the window's and the stars are the layered starfield for it, 270 or 540 in all |
| Starfield.StarfieldEffect.Stop | js/effects/starfield.js:57-82 | no frame is pending or recorded, no listener remains, the timer is cleared and both star lists are empty; nothing else changes |
| Starfield.StarfieldEffect.OnResize | js/effects/starfield.js:84-98 | the size becomes the window's and the starfield is rebuilt for it |
| Starfield.StarfieldEffect.OnMouseMove | js/effects/starfield.js:45-48 | the mouse is stored relative to the canvas centre |
| Starfield.StarfieldEffect.InitStars | js/effects/starfield.js:121-140 | the stars become the layered starfield, 270 or 540 in all, all twinkling |
| Starfield.StarfieldEffect.SpawnShootingStar | js/effects/starfield.js:142-163 | one shooting star is appended and the timer re-armed |
| Starfield.StarfieldEffect.OnTimer | js/effects/starfield.js:159-162 | the timer's firing appends one shooting star and re-arms itself |
| Starfield.StarfieldEffect.MoveStars | js/effects/starfield.js:167-184 | every star takes its update; on a non-empty canvas all depths are positive |
| Starfield.StarfieldEffect.MoveShootingStars | js/effects/starfield.js:186-197 | the shooting stars become the specified backward pass: moved, the faded ones removed, order kept |
| Starfield.StarfieldEffect.Animate | js/effects/starfield.js:235-241 | the stars become `StepStars` of the old ones and the shooting stars `Glowing` of the old ones; the star count is kept, depths stay positive, and exactly one frame is pending under a new id |
| Starfield.StarfieldEffect.OnFrame | js/effects/starfield.js:235-241 | the fired id leaves the queue; the stars become `StepStars` and the shooting stars `Glowing` of the old ones; one frame with a new id is pending |
| Fireworks.Burst | js/effects/fireworks.js:243-265 | a burst of type `kind` adds that type's fixed number of sparks, all at the burst point, fully opaque and fading; only type 7's sparks split later |
| Fireworks.BurstCounts | js/effects/fireworks.js:247-263 | the nine types add 100, 120, 100, 120, 180, 150, 140, 60 and 100 sparks |
| Fireworks.SplitSparks | js/effects/fireworks.js:141-158 | a split adds 14 fully opaque, non-splitting sparks at the spark's new position |
| Fireworks.SparkStep | js/effects/fireworks.js:130-160 | a spark falls by gravity 0.018 and fades by its decay; it pushes 14 sparks exactly when it is a phase-2 spark whose alpha has just dropped below 0.55, and its split flag is then cleared |
| Fireworks.SparkFades | js/effects/fireworks.js:135 | after n updates a spark's alpha has fallen by exactly n times its decay |
| Fireworks.SplitsOnce | js/effects/fireworks.js:137-140 | a phase-2 spark splits at most once, and within n updates it has split exactly when its alpha has by then dropped below 0.55; other sparks never split |
| Fireworks.SurvivorsFrom | js/effects/fireworks.js:327-332 | the spark pass keeps only sparks with positive alpha, at most as many as it visits |
| Fireworks.SurvivorsComplete | js/effects/fireworks.js:327-332 | the spark pass drops no spark that is still visible after its update |
| Fireworks.SpawnedFrom | js/effects/fireworks.js:327-332 | every spark a split pushes is fully opaque and never splits |
| Fireworks.SparkPassStep | js/effects/fireworks.js:327-332 | one turn of the backward spark pass (update in place, push split sparks at the end, splice out a faded spark) extends the finished suffix |
| Fireworks.CreateRocket | js/effects/fireworks.js:180-211 | a new rocket starts unexploded at the bottom edge, with that type and gravity 0.015 |
| Fireworks.RocketStep | js/effects/fireworks.js:213-229 | gravity adds to the vertical speed; the rocket explodes on this update exactly when it had not yet and is now falling, and stays exploded |
| Fireworks.ExplodesOnce | js/effects/fireworks.js:218-228 | under non-negative gravity a rocket explodes at most once, and within n updates exactly when `vy + n * gravity >= 0` |
| Fireworks.FlyingFrom | js/effects/fireworks.js:320-325 | the rocket pass keeps only unexploded rockets, at most as many as it visits |
| Fireworks.RocketSplice | js/effects/fireworks.js:320-325 | one turn of the backward rocket pass, updating rocket i and splicing it out once exploded, extends the finished suffix |
| Fireworks.BurstSparks | js/effects/fireworks.js:243-265 | the `createParticle` loop of `explode` builds exactly that burst, in push order |
| Fireworks.RocketPass | js/effects/fireworks.js:320-325 | the rocket loop leaves exactly the flying rockets and adds exactly the bursts of the rockets that exploded |
| Fireworks.DebrisFresh | js/effects/fireworks.js:227-265 | every spark the rocket pass adds is fully opaque |
| Fireworks.PlanShots | js/effects/fireworks.js:286-306 | a queued click is served alone; otherwise a mouse shot fires exactly when the last one is over 2 s old and the mouse moved in the last 3 s, and a random shot exactly when the last one is over 0.9 s old and no click came in the last 0.4 s |
| Fireworks.Spawn | js/effects/fireworks.js:269-273 | a spawn appends one unexploded rocket at the bottom edge exactly when there are at most 80 rockets and at most 2000 sparks, and keeps at most 81 rockets |
| Fireworks.Shots | js/effects/fireworks.js:286-306 | the shots of a plan only append rockets, at most one per shot, none exploded, and never beyond 81 |
| Fireworks.ShotsRoom | js/effects/fireworks.js:269-306 | with room for every shot each planned shot adds its rocket; at either cap no shot adds one |
| Fireworks.Frame | js/effects/fireworks.js:286-335 | after a frame no rocket has exploded and every spark is visible, the 81-rocket cap holds, exactly one queued click is consumed when any is queued (then no timed shot fires), and each shot time is either kept or `now` |
| Fireworks.FireworksEffect.constructor | js/effects/fireworks.js:4-35 | the effect starts with no frame, no listeners, no rockets, sparks or clicks, and all timestamps 0 |
| Fireworks.FireworksEffect.Start | js/effects/fireworks.js:39-60 | with a frame scheduled, or without a canvas, nothing changes; otherwise three listeners are attached, the size is the window's, exactly one frame is pending and the rockets, sparks, click queue and shot times are those of one frame at `now = 0` with the mouse at the centre |
| Fireworks.FireworksEffect.Open | js/effects/fireworks.js:57-58 | the size is the window's, one frame is pending and the state is one `Frame` further with the mouse at the centre |
| Fireworks.FireworksEffect.Stop | js/effects/fireworks.js:64-93 | no frame is pending and no listener remains; it throws exactly when no canvas was ever found, and otherwise empties rockets, sparks and clicks; size, mouse and timestamps are untouched |
| Fireworks.FireworksEffect.OnResize | js/effects/fireworks.js:97-112 | the size becomes the window's and the mouse is reset to its centre |
| Fireworks.FireworksEffect.OnMove | js/effects/fireworks.js:275-279 | the mouse and its time are recorded |
| Fireworks.FireworksEffect.OnClick | js/effects/fireworks.js:281-284 | the click point is queued and its time recorded |
| Fireworks.FireworksEffect.SpawnRocket | js/effects/fireworks.js:269-273 | a rocket of a random type is appended exactly when there are at most 80 rockets and at most 2000 sparks; otherwise nothing changes |
| Fireworks.FireworksEffect.Control | js/effects/fireworks.js:286-306 | the click queue loses its head exactly when a click is served; the shot timestamps move to `now` exactly for the shots planned, spawned or not; the rockets are those `Shots` fires for that plan, aimed at the click, the mouse and the random point |
| Fireworks.FireworksEffect.UpdateRockets | js/effects/fireworks.js:320-325 | the rockets become the flying ones and the sparks gain the bursts |
| Fireworks.FireworksEffect.UpdateSparks | js/effects/fireworks.js:327-332 | the sparks become the survivors of the pass followed by the sparks the splits pushed |
| Fireworks.FireworksEffect.Step | js/effects/fireworks.js:312-332 | control, the rocket pass and the spark pass together take the state one `Frame` further |
| Fireworks.FireworksEffect.Animate | js/effects/fireworks.js:310-335 | the rockets, sparks, click queue and shot times become one `Frame` of the old ones, and exactly one frame, newer than every earlier one, is pending |
| Fireworks.FireworksEffect.OnFrame | js/effects/fireworks.js:310-335 | the firing callback leaves the queue, a new one is the only frame pending, and the state is one `Frame` further |

## Left out

- Drawing is not modelled: arcs, gradients, shadows, composite modes, trails, petal curves, the rocket trails, the singularity's connection lines and its energy core. None of it changes the effects' state.
- Canvas sizing is not modelled: device-pixel-ratio scaling, `setTransform` and the canvas element setup. The window size is an input wherever the source reads `innerWidth`/`innerHeight`.
- HSL/RGB colour strings are not modelled, and neither is the `Date.now()`-driven hue of drift's motes. They affect only what is drawn.
- IEEE double arithmetic becomes exact `real` arithmetic. Counts such as "a shooting star lives exactly 50 updates" hold for reals and may differ by one under float rounding.
- Trigonometry, `sqrt`, `hypot`, `atan2` and `Math.pow` are host inputs, not computed. Inputs of this kind include drift's edge-spawn size draw `Math.pow(Math.random(), 0.7)`, burst and split velocities (`Kicks`), fireworks type 7's hue draw and type 8's heart curve, the sway terms and the distances the effects test. Singularity's cubic pull falloff `Math.pow(pull, 3)` is the exception: it is computed as `pull * pull * pull`.
- Fireworks.CreateRocket: the apex-targeting `sqrt` solve is not computed. The launch velocity is an input (`Launch.vx`/`vy`), so the model does not tie the apex to the target.
- Timer delays and the order in which timers fire are not modelled. Singularity's `FireTimer` may run any pending task. Starfield's shooting-star timeout is only an armed flag.
- `EffectController.register` is called by every effect file but is not defined in `js/effects.js`; those calls are left out. `EC.setEffect` is not defined there either. The selector takes whether its controller has one as a parameter: without it, the case of this repository, `randomStart` throws, so the manager never calls `toggleEffects(true)`, never shows an icon and never binds its buttons. With it, the selector logs `setEffect` requests and does not carry them out.
- `js/main.js` and `script.js` are not part of this model. They do fetching, `localStorage`, URL parsing and DOM text, with no effect logic.
- Several module-level loop methods build a new sequence that the class method then assigns, where the source updates and splices the array in place: Drift.Partition, Drift.ShatterMote, Drift.TopUp, Starfield.StepEach, Starfield.LayerLoop, Fireworks.RocketPass, Fireworks.BurstSparks and Singularity.QueueReleases. Their contents and push order are as in the source. Aliasing of the live array during the loop is not modelled.
- Singularity.SingularityEffect.TriggerBurst: a queued release names its mote by index, while the source's closure holds the mote object. The two agree because no frame reorders or removes motes while a burst is pending.
- Peach.PeachEffect.Start: `start` reads `performance.now()` twice, for the intro clock and the frame clock; both are the frame's `now` here.
- Peach.PeachEffect.RegulateDensity: it uses the frame's `now` where the source calls `performance.now()` a second time inside `regulateDensity`.
- Sakura, drift and starfield require a non-negative window size. `innerWidth`/`innerHeight` never go below 0.
- Starfield.StarfieldEffect.Start: `start` calls `initStars` twice, once through `resize` and once directly. Both calls are modelled, and only the second set of stars survives.
