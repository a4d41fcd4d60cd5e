/** The game object of `alien_invasion.py`: its sprite groups, its counters and the rules that change them. */
module Invasion {
  import opened Geometry
  import opened GameSettings
  import opened Statistics
  import opened Fleet
  import opened Collisions
  import opened Transitions

  /** Scoring the next entry of the collision dictionary takes its aliens off what remains to be scored. */
  lemma ScoreNextHits(hits: seq<Hit>, k: nat, alienPoints: nat)
    requires k < |hits|
    ensures alienPoints * TotalHits(hits[k..]) == alienPoints * |hits[k].killed| + alienPoints * TotalHits(hits[k + 1..])
  {
    assert hits[k..][1..] == hits[k + 1..];
  }

  /** One step of the prune loop: removing or keeping `copy[i]` extends the pruned prefix by one. */
  lemma PruneStep(copy: seq<Rect>, i: nat, bullets: seq<Rect>)
    requires i < |copy| && bullets == OnScreen(copy[..i]) + copy[i..]
    ensures var j := |OnScreen(copy[..i])|;
      j < |bullets| && bullets[j] == copy[i] &&
      (copy[i].Bottom() <= 0 ==>
        bullets[..j] + bullets[j + 1..] == OnScreen(copy[..i + 1]) + copy[i + 1..] &&
        |OnScreen(copy[..i + 1])| == j) &&
      (copy[i].Bottom() > 0 ==>
        bullets == OnScreen(copy[..i + 1]) + copy[i + 1..] &&
        |OnScreen(copy[..i + 1])| == j + 1)
  {
    var kept := OnScreen(copy[..i]);
    var rest := copy[i + 1..];
    OnScreenSnoc(copy[..i], copy[i]);
    assert copy[..i + 1] == copy[..i] + [copy[i]];
    assert copy[i..] == [copy[i]] + rest;
    assert bullets == kept + [copy[i]] + rest;
    if copy[i].Bottom() <= 0 {
      assert bullets[..|kept|] == kept;
      assert bullets[|kept| + 1..] == rest;
    }
  }

  /** The keys the keyboard handlers tell apart. */
  datatype Key = RightArrow | LeftArrow | QuitKey | Space | OtherKey

  class AlienInvasion {
    const settings: Settings
    const playButton: Rect    // `play_button.rect`
    const stats: GameStats
    var bullets: seq<Rect>
    var aliens: seq<Rect>
    var fleetDirection: int   // `settings.fleet_direction`
    var movingLeft: bool      // `ship.moving_left`
    var movingRight: bool     // `ship.moving_right`

    /** The game's invariant: never more live bullets than allowed, and a unit fleet direction. */
    ghost predicate Valid()
      reads this
    {
      settings.Valid() && stats.shipLimit == settings.shipLimit &&
      |bullets| <= settings.bulletsAllowed &&
      (fleetDirection == 1 || fleetDirection == -1)
    }

    /** The counters and both sprite groups as one session value. */
    ghost function Now(): (s: Session)
      reads this, stats
    {
      Session(stats.View(), bullets, aliens)
    }

    /** `__init__`, without the display, music, joystick and key-map set-up. */
    constructor (settings: Settings, playButton: Rect)
      requires settings.Valid()
      ensures Valid() && fresh(stats)
      ensures this.settings == settings && this.playButton == playButton
      ensures bullets == [] && aliens == Layout(settings)
      ensures fleetDirection == settings.fleetDirection && !movingLeft && !movingRight
      ensures stats.shipsLeft == settings.shipLimit && stats.score == 0 && stats.level == 1
      ensures stats.highScore == 0 && !stats.gameActive
    {
      this.settings := settings;
      this.playButton := playButton;
      stats := new GameStats(settings.shipLimit);
      bullets := [];
      aliens := [];
      fleetDirection := settings.fleetDirection;
      movingLeft, movingRight := false, false;
      new;
      CreateFleet();
    }

    /** `_create_alien`: add the alien of column `n`, row `r`. */
    method CreateAlien(n: int, r: int)
      modifies this`aliens
      ensures aliens == old(aliens) + [AlienAt(settings, n, r)]
    {
      aliens := aliens + [AlienAt(settings, n, r)];
    }

    /** `_create_fleet`: add every alien of the grid, row by row. */
    method CreateFleet()
      requires settings.Valid()
      modifies this`aliens
      ensures aliens == old(aliens) + Layout(settings)
    {
      var numberAliensX := ColumnCount(settings);
      var numberRows := RowCount(settings);
      for rowNumber := 0 to Max0(numberRows)
        invariant aliens == old(aliens) + Grid(settings, rowNumber, Max0(numberAliensX))
      {
        for alienNumber := 0 to Max0(numberAliensX)
          invariant aliens == old(aliens) + Grid(settings, rowNumber, Max0(numberAliensX))
                              + RowPrefix(settings, rowNumber, alienNumber)
        {
          CreateAlien(alienNumber, rowNumber);
        }
      }
    }

    /** `_fire_bullet`: a new bullet at `spawn` only while fewer than the allowed number are live. */
    method FireBullet(spawn: Rect)
      requires Valid()
      modifies this`bullets
      ensures Valid()
      ensures |old(bullets)| < settings.bulletsAllowed ==> bullets == old(bullets) + [spawn]
      ensures |old(bullets)| >= settings.bulletsAllowed ==> bullets == old(bullets)
    {
      if |bullets| < settings.bulletsAllowed {
        bullets := bullets + [spawn];
      }
    }

    /** The prune loop of `_update_bullets`: remove, one by one, the bullets that have left the top. */
    method PruneBullets()
      modifies this`bullets
      ensures bullets == OnScreen(old(bullets))
    {
      var copy := bullets;
      var j := 0;   // the position of `copy[i]` in `bullets`
      for i := 0 to |copy|
        invariant bullets == OnScreen(copy[..i]) + copy[i..]
        invariant j == |OnScreen(copy[..i])|
      {
        PruneStep(copy, i, bullets);
        if copy[i].Bottom() <= 0 {
          bullets := bullets[..j] + bullets[j + 1..];
        } else {
          j := j + 1;
        }
      }
      assert copy[..|copy|] == copy;
    }

    /** The scoring loop of `_check_bullet_alien_collisions`: points for every alien in the collision dictionary. */
    method ScoreCollisions(hits: seq<Hit>)
      modifies stats`score
      ensures stats.score == old(stats.score) + settings.alienPoints * TotalHits(hits)
    {
      for k := 0 to |hits|
        invariant stats.score + settings.alienPoints * TotalHits(hits[k..])
               == old(stats.score) + settings.alienPoints * TotalHits(hits)
      {
        ScoreNextHits(hits, k, settings.alienPoints);
        stats.score := stats.score + settings.alienPoints * |hits[k].killed|;
      }
      assert hits[|hits|..] == [];
    }

    /**
     * `_check_bullet_alien_collisions`: remove what `groupcollide` kills, score `alien_points` for
     * every alien killed, and when the fleet is gone clear the bullets, build a new fleet and go
     * up exactly one level.
     */
    method CheckBulletAlienCollisions()
      requires Valid()
      modifies this`bullets, this`aliens, stats
      ensures Valid()
      ensures var o := GroupCollide(old(bullets), old(aliens));
        stats.score == old(stats.score) + settings.alienPoints * (|old(aliens)| - |o.aliens|) &&
        (o.aliens == [] ==> bullets == [] && aliens == Layout(settings) && stats.level == old(stats.level) + 1) &&
        (o.aliens != [] ==> bullets == o.bullets && aliens == o.aliens && stats.level == old(stats.level))
      ensures stats.score >= old(stats.score)
      ensures stats.shipsLeft == old(stats.shipsLeft) && stats.highScore == old(stats.highScore)
      ensures stats.gameActive == old(stats.gameActive)
    {
      var collisions := GroupCollide(bullets, aliens);
      GroupCollideCounts(bullets, aliens);
      ghost var killed := |aliens| - |collisions.aliens|;
      assert TotalHits(collisions.hits) == killed;
      bullets := collisions.bullets;
      aliens := collisions.aliens;
      if collisions.hits != [] {
        ScoreCollisions(collisions.hits);
      } else {
        assert killed == 0;
      }
      if aliens == [] {
        NextLevel();
      }
    }

    /** The fleet is gone: clear the bullets, build a new fleet and go up one level. */
    method NextLevel()
      requires settings.Valid() && aliens == []
      modifies this`bullets, this`aliens, stats`level
      ensures bullets == [] && aliens == Layout(settings) && stats.level == old(stats.level) + 1
    {
      bullets := [];
      CreateFleet();
      stats.level := stats.level + 1;
    }

    /**
     * `_update_bullets`: the bullets take the positions `moved` that `Bullet.update` gives them,
     * the ones off the top are pruned, then the collision pass runs.
     */
    method UpdateBullets(moved: seq<Rect>)
      requires Valid() && |moved| == |bullets|
      modifies this`bullets, this`aliens, stats
      ensures Valid()
      ensures var o := GroupCollide(OnScreen(moved), old(aliens));
        stats.score == old(stats.score) + settings.alienPoints * (|old(aliens)| - |o.aliens|) &&
        (o.aliens == [] ==> bullets == [] && aliens == Layout(settings) && stats.level == old(stats.level) + 1) &&
        (o.aliens != [] ==> bullets == o.bullets && aliens == o.aliens && stats.level == old(stats.level))
      ensures stats.shipsLeft == old(stats.shipsLeft) && stats.highScore == old(stats.highScore)
      ensures stats.gameActive == old(stats.gameActive)
      ensures stats.score >= old(stats.score)
    {
      bullets := moved;
      PruneBullets();
      CheckBulletAlienCollisions();
    }

    /** `_change_fleet_direction`: drop every alien and reverse the fleet. */
    method ChangeFleetDirection()
      requires Valid()
      modifies this`aliens, this`fleetDirection
      ensures Valid()
      ensures aliens == Dropped(old(aliens), settings.fleetDropSpeed)
      ensures fleetDirection == -old(fleetDirection)
    {
      for i := 0 to |aliens|
        modifies this`aliens
        invariant |aliens| == |old(aliens)|
        invariant forall k :: 0 <= k < i ==> aliens[k] == old(aliens)[k].(y := old(aliens)[k].y + settings.fleetDropSpeed)
        invariant forall k :: i <= k < |aliens| ==> aliens[k] == old(aliens)[k]
      {
        aliens := aliens[i := aliens[i].(y := aliens[i].y + settings.fleetDropSpeed)];
      }
      fleetDirection := -fleetDirection;
    }

    /** `_check_fleet_edges`: one drop and reversal when some alien touches a side of the screen. */
    method CheckFleetEdges()
      requires Valid()
      modifies this`aliens, this`fleetDirection
      ensures Valid()
      ensures AnyAtEdge(old(aliens), settings.screenWidth) ==>
        aliens == Dropped(old(aliens), settings.fleetDropSpeed) && fleetDirection == -old(fleetDirection)
      ensures !AnyAtEdge(old(aliens), settings.screenWidth) ==>
        aliens == old(aliens) && fleetDirection == old(fleetDirection)
    {
      for i := 0 to |aliens|
        invariant aliens == old(aliens) && fleetDirection == old(fleetDirection)
        invariant forall k :: 0 <= k < i ==> !AtEdge(aliens[k], settings.screenWidth)
      {
        if AtEdge(aliens[i], settings.screenWidth) {
          ChangeFleetDirection();
          return;
        }
      }
    }

    /** `aliens.update()`: every alien moves `alienSpeed` sideways in the fleet's direction. */
    method MoveAliens(alienSpeed: nat)
      requires Valid()
      modifies this`aliens
      ensures Valid()
      ensures aliens == Advanced(old(aliens), alienSpeed * fleetDirection)
    {
      var dx := alienSpeed * fleetDirection;
      for i := 0 to |aliens|
        invariant |aliens| == |old(aliens)|
        invariant forall k :: 0 <= k < i ==> aliens[k] == old(aliens)[k].(x := old(aliens)[k].x + dx)
        invariant forall k :: i <= k < |aliens| ==> aliens[k] == old(aliens)[k]
      {
        aliens := aliens[i := aliens[i].(x := aliens[i].x + dx)];
      }
    }

    /** `_ship_hit`. */
    method ShipHit()
      requires Valid()
      modifies this`bullets, this`aliens, stats
      ensures Valid()
      ensures Now() == AfterShipHit(old(Now()), Layout(settings))
    {
      if stats.shipsLeft > 0 {
        stats.shipsLeft := stats.shipsLeft - 1;
        aliens := [];
        bullets := [];
        CreateFleet();
      } else {
        stats.gameActive := false;
      }
    }

    /** `_check_aliens_bottom`: at most one ship hit, when some alien has reached the bottom. */
    method CheckAliensBottom()
      requires Valid()
      modifies this`bullets, this`aliens, stats
      ensures Valid()
      ensures Now() == AfterBottomCheck(old(Now()), settings.screenHeight, Layout(settings))
    {
      for i := 0 to |aliens|
        invariant Now() == old(Now())
        invariant forall k :: 0 <= k < i ==> !AtBottom(aliens[k], settings.screenHeight)
      {
        if AtBottom(aliens[i], settings.screenHeight) {
          ShipHit();
          return;
        }
      }
    }

    /**
     * `_update_aliens`: the edge reaction, the sideways march by `alienSpeed`, a ship hit if some
     * alien collides with the ship at `ship`, then the bottom check.
     */
    method UpdateAliens(alienSpeed: nat, ship: Rect)
      requires Valid()
      modifies this`bullets, this`aliens, this`fleetDirection, stats
      ensures Valid()
      ensures
        var edge := AnyAtEdge(old(aliens), settings.screenWidth);
        var dir := if edge then -old(fleetDirection) else old(fleetDirection);
        var marched := Advanced(if edge then Dropped(old(aliens), settings.fleetDropSpeed) else old(aliens),
                                alienSpeed * dir);
        var moved := old(Now()).(aliens := marched);
        var checked := if AnyOverlapping(ship, marched) then AfterShipHit(moved, Layout(settings)) else moved;
        fleetDirection == dir &&
        Now() == AfterBottomCheck(checked, settings.screenHeight, Layout(settings))
    {
      CheckFleetEdges();
      MoveAliens(alienSpeed);
      if AnyOverlapping(ship, aliens) {
        ShipHit();
      }
      CheckAliensBottom();
    }

    /** `_check_play_button`: a click on the button while the game is idle starts a new game. */
    method CheckPlayButton(mouseX: int, mouseY: int)
      requires Valid()
      modifies this`bullets, this`aliens, stats
      ensures Valid()
      ensures playButton.ContainsPoint(mouseX, mouseY) && !old(stats.gameActive) ==>
        stats.View() == Reset(old(stats.View()), settings.shipLimit).(gameActive := true) &&
        bullets == [] && aliens == Layout(settings)
      ensures !(playButton.ContainsPoint(mouseX, mouseY) && !old(stats.gameActive)) ==>
        Now() == old(Now())
    {
      var buttonClicked := playButton.ContainsPoint(mouseX, mouseY);
      if buttonClicked && !stats.gameActive {
        stats.ResetStats();
        stats.gameActive := true;
        aliens := [];
        bullets := [];
        CreateFleet();
      }
    }

    /** `_check_keydown_events`: arrows start movement, space fires, and `q` asks to quit. */
    method CheckKeydownEvents(key: Key, spawn: Rect) returns (quit: bool)
      requires Valid()
      modifies this`movingLeft, this`movingRight, this`bullets
      ensures Valid()
      ensures quit <==> key == QuitKey
      ensures movingRight == (old(movingRight) || key == RightArrow)
      ensures movingLeft == (old(movingLeft) || key == LeftArrow)
      ensures key == Space && |old(bullets)| < settings.bulletsAllowed ==> bullets == old(bullets) + [spawn]
      ensures !(key == Space && |old(bullets)| < settings.bulletsAllowed) ==> bullets == old(bullets)
    {
      quit := false;
      if key == RightArrow {
        movingRight := true;
      } else if key == LeftArrow {
        movingLeft := true;
      } else if key == QuitKey {
        quit := true;
      } else if key == Space {
        FireBullet(spawn);
      }
    }

    /** `_check_keyup_events`: releasing an arrow stops movement that way. */
    method CheckKeyupEvents(key: Key)
      requires Valid()
      modifies this`movingLeft, this`movingRight
      ensures Valid()
      ensures movingRight == (old(movingRight) && key != RightArrow)
      ensures movingLeft == (old(movingLeft) && key != LeftArrow)
    {
      if key == RightArrow {
        movingRight := false;
      } else if key == LeftArrow {
        movingLeft := false;
      }
    }
  }
}
