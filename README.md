# Alien Invasion game state in Dafny

This project models the game-state core of the pygame "Alien Invasion" game: the `AlienInvasion`
object of `alien_invasion.py` with its live bullets, its live aliens, the fleet direction and the
ship's movement flags, and the `GameStats` object of `game_stats.py` with the ships left, the
score, the level, the high score and the active flag.

pygame's `Rect` becomes an integer rectangle (`Geometry.Rect`). A sprite group becomes a sequence
of rectangles in insertion order. `colliderect` and `collidepoint` are written out with pygame's
edge rules. `groupcollide(bullets, aliens, True, True)` is modelled as pygame runs it: bullets are
taken in group order, and each bullet kills every alien it overlaps that is still alive.

The modules follow the program:

- `Geometry`: rectangles, overlap and point containment.
- `GameSettings`: the constants the game reads from `Settings`, the alien image and the ship image.
- `Statistics`: the `GameStats` class and `reset_stats`.
- `Fleet`: the grid built by `_create_fleet`, the edge and bottom tests, and the drop and march movements.
- `Collisions`: the off-screen prune and `groupcollide`.
- `Transitions`: the effect of `_ship_hit` and of the bottom check on a session value.
- `Invasion`: the `AlienInvasion` class, whose methods update its fields and its `GameStats` in place.

A hit with one ship left does not end the game. `_ship_hit` decrements `ships_left` only while
it is positive and ends the game only when a hit arrives with none left, so the game runs on with
zero ships until the next hit (`Transitions.LastReserveShip`).

## Model

| member | source | states |
|---|---|---|
| Statistics.Reset | game_stats.py:11-15 | a reset gives `ship_limit` ships, score 0 and level 1, and keeps the high score and the active flag |
| Statistics.ResetIdempotent | game_stats.py:11-15 | resetting twice leaves the same counters as resetting once |
| Statistics.GameStats.constructor | game_stats.py:3-9 | a new `GameStats` is reset, inactive and has high score 0 |
| Statistics.GameStats.ResetStats | game_stats.py:11-15 | `reset_stats` changes the counters exactly as `Reset` does |
| Fleet.Layout | alien_invasion.py:178-205 | the fleet `_create_fleet` builds, row after row; it has `((W - 2w) // 2w) * ((H - 3h - shipH) // 2h)` aliens, a negative count giving none |
| Fleet.LayoutCell | alien_invasion.py:193-204 | alien `n` of row `r` is added at index `r * columns + n`, at x = w + 2w·n and y = h + 2h·r |
| Fleet.GridApart | alien_invasion.py:193-204 | no two aliens of any number of full rows overlap |
| Fleet.LayoutApart | alien_invasion.py:193-204 | no two aliens of a new fleet overlap, and no two are equal |
| Fleet.LayoutOnScreen | alien_invasion.py:184-204 | every alien of a new fleet lies inside the space the packing reserves, so it touches no side and is clear of the bottom |
| Fleet.StandardScreenFleet | alien_invasion.py:184-190 | on an 800 by 600 screen with 24-pixel aliens and a 40-pixel ship, the fleet has 15 columns, 10 rows and 150 aliens |
| Collisions.OnScreen | alien_invasion.py:150-152 | the prune never adds a bullet, and every bullet it keeps has its bottom below the top of the screen |
| Collisions.OnScreenCounts | alien_invasion.py:150-152 | the prune keeps every copy of each bullet whose bottom is below the top, and nothing else |
| Collisions.HitSplit | alien_invasion.py:160-161 | one bullet splits the aliens into those it overlaps and those it misses, each alien on exactly one side |
| Collisions.HitSplitCounts | alien_invasion.py:160-161 | what one bullet hits and what it misses make up the group, copy for copy |
| Collisions.GroupCollide | alien_invasion.py:160-161 | the surviving bullets, the surviving aliens and the dictionary entries of `groupcollide`; each bullet either survives or is one key |
| Collisions.Killed | alien_invasion.py:164-165 | the aliens the dictionary lists, as many as `TotalHits` counts |
| Collisions.GroupCollideCounts | alien_invasion.py:160-165 | as many aliens are removed as the dictionary lists |
| Collisions.GroupCollideAliens | alien_invasion.py:160-161 | the surviving aliens and the listed aliens together are exactly the aliens the pass started with, copy for copy |
| Collisions.GroupCollideFrom | alien_invasion.py:160-161 | survivors come from the groups; each dictionary entry is a bullet of the group with a non-empty list of aliens of the group, every one of which that bullet overlaps |
| Collisions.GroupCollideBullets | alien_invasion.py:160-161 | the surviving bullets and the dictionary's keys together are exactly the bullets the pass started with, copy for copy |
| Collisions.GroupCollideKeeps | alien_invasion.py:160-161 | a bullet that overlaps no alien survives |
| Collisions.GroupCollideSeparated | alien_invasion.py:160-161 | no surviving bullet overlaps a surviving alien |
| Collisions.GroupCollideSpares | alien_invasion.py:160-161 | an alien that no bullet overlaps survives |
| Collisions.GroupCollideKills | alien_invasion.py:160-161 | an alien that some bullet overlaps is removed: no bullet of the group overlaps a survivor |
| Collisions.GroupCollideFirst | alien_invasion.py:160-161 | each listed alien goes to the first bullet, in group order, that overlaps it: its key overlaps it and no earlier bullet does, so a bullet that overlaps only aliens already killed is not spent |
| Collisions.TwoSeparateHits | alien_invasion.py:160-165 | two bullets that each overlap only their own alien remove both bullets and both aliens, giving two dictionary entries and two aliens scored |
| Transitions.AfterShipHit | alien_invasion.py:249-267 | the effect of `_ship_hit` on the session: one ship fewer while any is left, never below zero; score, level and high score kept |
| Transitions.AfterBottomCheck | alien_invasion.py:269-276 | the effect of `_check_aliens_bottom`: at most one ship lost, score and level kept, and nothing changes when no alien is at the bottom |
| Transitions.ShipHitOutcome | alien_invasion.py:249-267 | with a ship in reserve, a hit uses it up, clears the bullets and brings a new fleet; with none, the game ends and nothing else changes |
| Transitions.LastReserveShip | alien_invasion.py:251-266 | a hit with one ship left keeps the game active with zero ships, and the next hit ends it |
| Transitions.NoSecondHitAfterRespawn | alien_invasion.py:226-234 | after a hit that brings a new fleet, the bottom check in the same update costs no second ship |
| Invasion.AlienInvasion.constructor | alien_invasion.py:22-37 | a new game has no bullets, one full fleet, reset inactive stats and the initial direction |
| Invasion.AlienInvasion.CreateAlien | alien_invasion.py:198-205 | `_create_alien(n, r)` appends the alien of column `n`, row `r` |
| Invasion.AlienInvasion.CreateFleet | alien_invasion.py:178-196 | the nested loops append exactly the fleet `Layout` |
| Invasion.AlienInvasion.FireBullet | alien_invasion.py:139-143 | one bullet is added while fewer than `bullets_allowed` are live, none otherwise, so the cap holds |
| Invasion.AlienInvasion.PruneBullets | alien_invasion.py:150-152 | the removal loop over a copy leaves exactly the bullets `OnScreen` keeps, in order |
| Invasion.AlienInvasion.ScoreCollisions | alien_invasion.py:163-165 | the loop over the dictionary adds `alien_points` for every alien listed |
| Invasion.AlienInvasion.CheckBulletAlienCollisions | alien_invasion.py:156-176 | the score rises by `alien_points` per alien removed and never falls; with no alien left the bullets are cleared, a new fleet is built and the level goes up by one; otherwise the level stays; ships and the active flag are untouched |
| Invasion.AlienInvasion.NextLevel | alien_invasion.py:168-175 | a cleared fleet is replaced, the bullets are cleared and the level goes up by exactly one |
| Invasion.AlienInvasion.UpdateBullets | alien_invasion.py:145-154 | moved bullets are pruned and then go through the collision pass; the score never falls |
| Invasion.AlienInvasion.ChangeFleetDirection | alien_invasion.py:243-247 | every alien drops by `fleet_drop_speed`, x and the count are kept, and the direction is negated |
| Invasion.AlienInvasion.CheckFleetEdges | alien_invasion.py:236-241 | the fleet drops and reverses exactly once if some alien touches a side, and nothing changes otherwise |
| Invasion.AlienInvasion.MoveAliens | alien_invasion.py:229 | every alien moves sideways by the speed in the fleet's direction |
| Invasion.AlienInvasion.ShipHit | alien_invasion.py:249-267 | the new state is `AfterShipHit` of the old one: with a ship in reserve it is used up and the wave restarts; with none the game ends |
| Invasion.AlienInvasion.CheckAliensBottom | alien_invasion.py:269-276 | exactly one ship hit when some alien reaches the bottom, none otherwise |
| Invasion.AlienInvasion.UpdateAliens | alien_invasion.py:226-234 | edge reaction, march, a ship hit on contact with the ship, then the bottom check |
| Invasion.AlienInvasion.CheckPlayButton | alien_invasion.py:99-118 | a click inside the button while idle resets the stats, activates the game, clears the bullets and builds a new fleet; any other click changes nothing |
| Invasion.AlienInvasion.CheckKeydownEvents | alien_invasion.py:120-129 | the right or left arrow sets its flag, space fires under the cap, and `q` asks to quit |
| Invasion.AlienInvasion.CheckKeyupEvents | alien_invasion.py:131-137 | releasing an arrow clears only its own flag |

## Left out

- Rendering, the display, the caption, the cursor visibility and `_update_screen`: these are graphics calls with no game state.
- Music, joystick set-up and the key-map file (alien_invasion.py:39-52): these are device and file I/O.
- The analog-stick handling of `_check_events` (alien_invasion.py:84-97): it works on floating-point axis values.
- `_check_events` and `run_game`: the event queue and the main loop are input plumbing. Each handler they call is modelled, and a mouse click arrives as its coordinates.
- `sleep`, `clock.tick` and `sys.exit`: real-time pacing and process exit. The `q` key returns a quit flag instead of exiting.
- `bullet.py` is not part of this model. A new bullet's rectangle is a parameter (`spawn`), and `Bullet.update` becomes the parameter `moved` of `UpdateBullets`, so the float position of a bullet is not modelled.
- Invasion.AlienInvasion.MoveAliens: `Alien.update` is not part of this model. It is taken as an integer move of `speed * fleet_direction` along x, with no float position.
- Fleet.AtEdge: `Alien.check_edges` is not part of this model. It is taken as "the right side reaches the screen width, or the left side is at or left of 0".
- `Settings.initialize_dynamic_settings` and `Settings.increase_speed` are not part of this model: `alien_points` stays constant, and the fleet direction is not reset when a new game starts.
- `Scoreboard.check_high_score` and the `prep_*` methods are not part of this model, so the high score never changes here.
- `Ship.update` and `Ship.center_ship` are not part of this model. The ship's rectangle is a parameter of `UpdateAliens`.
- The `Settings` values `ship_limit`, `bullets_allowed`, `alien_points` and `fleet_drop_speed` are taken as non-negative (`nat`), as the game's settings are. A negative `alien_points` would make the score fall, so "the score never falls" rests on this.
- Settings.Sized requires a positive alien width and height: the fleet layout divides by them, and the source would fail on a zero size.
