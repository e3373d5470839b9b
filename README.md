# SpaceWars game state, in Dafny

SpaceWars is a two-player, same-screen arcade game written with pygame. Red
(left) and yellow (right) ships move in their own halves of a 1200 × 600
arena. A 6-pixel border at x = 597 divides the halves. Each side fires at
most three live bullets at a time. Every hit costs the ship that is hit one
of its 10 health points. A side wins when the other side's health is exactly
0, and the game then restarts.

This project models the integer game state of `SpaceWars.py` and proves
properties of it. It leaves out drawing, sound and timing.

- `arena.dfy` (module `Arena`): the constants, the `Rect` type, and the
  collision test, taken to be strict overlap.
- `movement.dfy` (module `Movement`): the two movement handlers as
  functions on a ship rectangle and the held keys.
- `bullets.dfy` (module `Bullets`): firing, and `Pass`, the reference
  definition of one run of a `handle_bullets` loop. `Pass` includes the skip
  that Python's list iteration causes when an element is removed mid-loop.
- `rounds.dfy` (module `Rounds`): the round state as a value, the events,
  the event loop, the winner check, and one whole frame (`FrameSpec`).
- `spacewars.dfy` (module `SpaceWars`): the class `Game`. Its fields are the
  locals of `main`. Its methods update them in place the way the source
  does, and each method is proved equal to the functions above.

A frame runs in the order the source uses:

1. Read all queued hit events and the frame's input events.
2. Check for a winner. On a win, restart and end the frame.
3. Move red, then move yellow.
4. Run the bullet loop for red, then for yellow. Each hit queues one event
   for the next frame.

Facts about `SpaceWars.py` that the model keeps as written:

- When both healths reach 0 in the same frame, the second assignment
  (SpaceWars.py:104-105) makes the text "Red Wins!".
- Red's bullet spawns at y = red.y + 50 // 2 (SpaceWars.py:77), which is 275
  at the start.
- A hit needs the rectangles to overlap (SpaceWars.py:226, :234). This model
  takes `colliderect` to be strict overlap, so touching edges are not a hit.
- The winner check (SpaceWars.py:100-108) runs before movement and bullets
  (SpaceWars.py:110-113), on the health left by the frame's events.
- Red's right guard and both ships' down guards are strict `<`
  (SpaceWars.py:179, :187, :211). Yellow's right guard is `<=`
  (SpaceWars.py:203).
- The ships start at coordinates 4 more than a multiple of 6 and move in
  steps of 6. Red therefore stays 4 pixels left of the border. Yellow stays
  1 pixel short of the right edge, even though its `<=` guard would allow
  the edge.
- A bullet that slides into the slot of a removed bullet is skipped for that
  frame (SpaceWars.py:224-238), as Python's list iteration does.

## Model

| member | source | states |
|---|---|---|
| `Arena.Collides` | SpaceWars.py:226 | the reference definition of `colliderect` as used at lines 226 and 234: strict overlap of the two rectangles on both axes |
| `Arena.CollidesIffSharedPoint` | SpaceWars.py:226 | for rectangles of positive size, the assumed `colliderect` (strict overlap) holds iff the two rectangles share an integer point, so touching edges are no hit |
| `Movement.RedMoved` | SpaceWars.py:174-188 | width and height never change; each coordinate moves by exactly -6, 0 or +6; the red region (0 <= x, x+55 < 597, 0 <= y, y+50 < 600) is preserved; with no key held on an axis that coordinate is unchanged; holding left and right (or up and down) together cancels once the first step of the pair has room (x >= 6, y >= 6), while with x < 6 (or y < 6) the pair moves the ship one step right (or down), which on the grid happens at x = 4 (or y = 4) |
| `Movement.YellowMoved` | SpaceWars.py:198-212 | the same for yellow, with its own guards: the yellow region (x > 603, x+55 <= 1200, 0 <= y, y+50 < 600) is preserved; left+right cancel once x - 6 > 603 and up+down once y >= 6; otherwise the pair moves yellow one step right (or down), which on the grid happens at x = 604 (or y = 4) |
| `Movement.MovesKeepGrid` | SpaceWars.py:174-212 | from a position 4 more than a multiple of 6 (as both start, SpaceWars.py:54-55), both movement handlers keep the ship on that grid |
| `Movement.GridLimits` | SpaceWars.py:174-212 | on the grid, red keeps 4 <= x, x+55 <= 593 (4 px short of the border); yellow keeps x >= 604 and x+55 <= 1199 (1 px short of the edge its `<=` guard would allow); both keep 4 <= y and y+50 <= 594; each bound is met by a grid position inside the region |
| `Bullets.Muzzle` | SpaceWars.py:76-85 | a new bullet is 10×5 and starts within the ship's vertical extent |
| `Bullets.Fire` | SpaceWars.py:74-87 | firing appends exactly one bullet, at the muzzle, iff the side has fewer than 3; at the cap the list is unchanged; a side never goes above 3 |
| `Bullets.Pass` | SpaceWars.py:224-238 | the reference definition of one `handle_bullets` loop over one side's list: advance by 11, drop on a hit (posting one hit) or on leaving the screen, and skip the bullet that slides into a removed slot |
| `Bullets.PassAccounting` | SpaceWars.py:224-238 | every bullet of a pass is exactly one of: kept, removed by a hit (one hit event each), removed by leaving the screen; so a pass never adds bullets and posts one event per collision removal |
| `Bullets.PassKeepsShape` | SpaceWars.py:224-238 | every kept bullet equals some input bullet either moved by exactly 11 in its side's direction or not moved at all, so y, width and height never change and no bullet moves the wrong way or further |
| `Bullets.PassWithoutDrops` | SpaceWars.py:224-238 | when no bullet hits or leaves, every bullet advances by exactly 11, order is kept and no hit is posted |
| `Bullets.LoneBullet` | SpaceWars.py:224-230 | collision is tested first: a colliding bullet is removed with exactly one hit even if it is also off-screen; otherwise it is removed iff it is off-screen (x >= 1200 red, x <= 0 yellow) |
| `Bullets.SkipAfterRemoval` | SpaceWars.py:224-230 | two red bullets that both leave the screen: the first is removed, the second stays unmoved for a frame |
| `Rounds.ApplyEvent` | SpaceWars.py:68-95 | a RedHit lowers red health by exactly 1 and changes nothing else, likewise YellowHit; key presses change only bullet lists; no event moves a ship; the 3-bullet cap is kept |
| `Rounds.EventSound` | SpaceWars.py:72-95 | a fire sound is asked for iff a shot is actually fired, a hit sound iff the event is a hit |
| `Rounds.ApplyEvents` | SpaceWars.py:68-95 | the reference definition of the event loop: `ApplyEvent` for each event in order |
| `Rounds.EventsKeepShipsAndCap` | SpaceWars.py:68-95 | a whole event loop moves neither ship and keeps the 3-bullet cap |
| `Rounds.HealthCount` | SpaceWars.py:89-95 | after an event loop each side's health is its old health minus the number of hit events against it |
| `Rounds.WinnerText` | SpaceWars.py:101-105 | "Red Wins!" iff yellow health is exactly 0; "Yellow Wins!" iff red is 0 and yellow is not; "" iff neither is 0 |
| `Rounds.TenHitsOnRed` | SpaceWars.py:60-105 | from a fresh round, 10 hits on red (fewer than 10 on yellow) leave red at 0 and yellow declared winner |
| `Rounds.Overshoot` | SpaceWars.py:90-105 | two hits on red at health 1 in one frame give -1 and no winner, and no later events bring red back to 0 |
| `Rounds.FrameSpec` | SpaceWars.py:65-113 | on a win the frame ends in the initial state (red at (100,250), yellow at (700,250), no bullets, health 10) and its quit is lost; otherwise quit is reported iff a quit event was read |
| `Rounds.Settle` | SpaceWars.py:110-113 | movement and bullets leave health alone, never add bullets and keep both ships in their regions |
| `Rounds.FrameKeepsValid` | SpaceWars.py:65-113 | every frame keeps at most 3 bullets per side and each ship in its half, whatever the events and keys |
| `Rounds.SettleAccounting` | SpaceWars.py:224-238 | the hit events queued by a frame are exactly one YellowHit per red bullet that hit and one RedHit per yellow bullet that hit, and kept + hit + exited bullets add up |
| `Rounds.FrameKeepsAligned` | SpaceWars.py:54-113 | every frame keeps both ships on the grid of their starting positions, including after a restart |
| `Rounds.FrameQueuesOnlyHits` | SpaceWars.py:224-238 | the queue a frame hands on holds only RedHit and YellowHit events, and no quit event; so when no quit was pending, a frame reports a quit only if its own input held one |
| `Rounds.PlaySpec` | SpaceWars.py:64-114 | the main loop runs frames in order until one reports a quit or the frames run out; it never runs more frames than given, and it ends early only after a frame that reported a quit |
| `Rounds.PlayKeepsValid` | SpaceWars.py:64-114 | the main loop keeps the bullet cap, both ships in their halves and both ships on the grid |
| `Rounds.PlayStopsOnQuit` | SpaceWars.py:68-70 | when the loop stops on a quit, the last frame it ran had a quit event among its input events |
| `Rounds.PlayRunsWithoutQuit` | SpaceWars.py:64-70 | with no quit event in any frame, the loop runs every frame and does not report a quit |
| `Rounds.IdleFrame` | SpaceWars.py:65-113 | with no events, no keys, no bullets and no winner, a frame changes nothing |
| `SpaceWars.Game.constructor` | SpaceWars.py:54-61 | the game starts in the initial state |
| `SpaceWars.Game.Restart` | SpaceWars.py:54-61 | the restart after a win puts the game back in the initial state |
| `SpaceWars.Game.HandleRedMovement` | SpaceWars.py:167-188 | the four guarded in-place steps move red exactly as `RedMoved` and change nothing else |
| `SpaceWars.Game.HandleYellowMovement` | SpaceWars.py:191-212 | the same for yellow and `YellowMoved` |
| `SpaceWars.Game.HandleEvent` | SpaceWars.py:69-95 | one event updates the state as `ApplyEvent`, reports quit iff it is a quit event, and asks for the sound of `EventSound` |
| `SpaceWars.Game.HandleEvents` | SpaceWars.py:68-95 | the event loop leaves the state `ApplyEvents` gives and reports quit iff some event was a quit |
| `SpaceWars.Game.HandleRedBullets` | SpaceWars.py:224-230 | the in-place loop with removal leaves exactly the bullets `Pass` keeps and posts one YellowHit per hit |
| `SpaceWars.Game.HandleYellowBullets` | SpaceWars.py:232-238 | the same for yellow bullets, posting one RedHit per hit |
| `SpaceWars.Game.HandleBullets` | SpaceWars.py:215-238 | red's loop then yellow's, against the ships as they are |
| `SpaceWars.Game.Frame` | SpaceWars.py:65-113 | one iteration of the main loop gives exactly the state, quit flag, sounds and banner of `FrameSpec` |
| `SpaceWars.Game.Play` | SpaceWars.py:64-114 | the main loop gives exactly the final state, frame count and quit flag of `PlaySpec`, and keeps the bullet cap, both ships in their halves and both ships on the grid |

## Left out

- Drawing: `draw_board`, `draw_winner`, the window, images, fonts and
  colours (SpaceWars.py:5-50, 117-164). These are rendering only.
- Sound playback: the model only returns `FireSound` and `HitSound` tags in
  the order the source plays them.
- Real-time pacing: `clock.tick(FPS)` and the 4-second
  `pygame.time.delay` on a win.
- The pygame event queue and `get_pressed`: a frame takes its input events
  and a record of held keys as parameters. Hit events posted by the bullet
  loop are kept in the state. The next frame reads them before its input
  events. In pygame, the order between these and input events depends on
  timing.
- The body of `colliderect`: it belongs to the library and is assumed to be
  strict overlap of the two rectangles.
- `list.remove(bullet)` deletes the first rectangle equal to the bullet. The
  model deletes the bullet's own slot. The two differ only when an earlier
  bullet in the same list has the same position and size.
- The recursive `main()` call on a win (SpaceWars.py:108): the model
  restarts in place and does not model the growing call stack. In the
  program, a quit after any win ends the inner `main()` with `pygame.quit()`
  (SpaceWars.py:114). Control then returns to the outer frame, which calls
  `pygame.key.get_pressed()` (SpaceWars.py:110) on a shut-down pygame and
  fails with a pygame error instead of exiting cleanly. `PlaySpec` and
  `Game.Play` stop cleanly on that quit. This is a simplification of the
  model.
- `pygame.quit()` at the end: the model only reports that quit was read.
