/**
 * The game-session effects of `_ship_hit` and `_check_aliens_bottom`, stated on a value holding
 * the counters and both sprite groups.
 */
module Transitions {
  import opened Geometry
  import opened GameSettings
  import opened Fleet
  import opened Statistics

  /** The counters of `GameStats` together with the live bullets and aliens. */
  datatype Session = Session(stats: StatsView, bullets: seq<Rect>, aliens: seq<Rect>)

  /**
   * `_ship_hit`: while a ship is left in reserve, use it up and restart the wave with `fleet`;
   * with none left, end the game and change nothing else.
   */
  function AfterShipHit(s: Session, fleet: seq<Rect>): (r: Session)
    ensures r.stats.shipsLeft == if s.stats.shipsLeft > 0 then s.stats.shipsLeft - 1 else 0
    ensures r.stats.score == s.stats.score && r.stats.level == s.stats.level
    ensures r.stats.highScore == s.stats.highScore
  {
    if s.stats.shipsLeft > 0 then
      s.(stats := s.stats.(shipsLeft := s.stats.shipsLeft - 1), bullets := [], aliens := fleet)
    else s.(stats := s.stats.(gameActive := false))
  }

  /** `_check_aliens_bottom`: one ship hit if some alien has reached the bottom of the screen. */
  function AfterBottomCheck(s: Session, screenHeight: int, fleet: seq<Rect>): (r: Session)
    ensures r.stats.shipsLeft + 1 >= s.stats.shipsLeft
    ensures r.stats.score == s.stats.score && r.stats.level == s.stats.level
    ensures !AnyAtBottom(s.aliens, screenHeight) ==> r == s
  {
    if AnyAtBottom(s.aliens, screenHeight) then AfterShipHit(s, fleet) else s
  }

  /**
   * A ship hit never leaves the reserve negative; it ends the game only when the reserve was
   * already empty; otherwise the game stays as active as it was.
   */
  lemma ShipHitOutcome(s: Session, fleet: seq<Rect>)
    ensures var r := AfterShipHit(s, fleet);
      r.stats.score == s.stats.score && r.stats.level == s.stats.level &&
      r.stats.highScore == s.stats.highScore &&
      (s.stats.shipsLeft > 0 ==> r.stats.shipsLeft + 1 == s.stats.shipsLeft &&
                                 r.stats.gameActive == s.stats.gameActive &&
                                 r.bullets == [] && r.aliens == fleet) &&
      (s.stats.shipsLeft == 0 ==> r == s.(stats := s.stats.(gameActive := false)))
  {
  }

  /** Losing the last reserve ship leaves the game running with none left; the next hit ends it. */
  lemma LastReserveShip(s: Session, fleet: seq<Rect>)
    requires s.stats.shipsLeft == 1 && s.stats.gameActive
    ensures AfterShipHit(s, fleet).stats.shipsLeft == 0 && AfterShipHit(s, fleet).stats.gameActive
    ensures !AfterShipHit(AfterShipHit(s, fleet), fleet).stats.gameActive
  {
  }

  /**
   * A hit that uses up a reserve ship brings in a fleet that is nowhere near the bottom, so the
   * bottom check that follows in the same update costs no second ship.
   */
  lemma NoSecondHitAfterRespawn(s: Session, cfg: Settings)
    requires cfg.Sized() && s.stats.shipsLeft > 0
    ensures AfterBottomCheck(AfterShipHit(s, Layout(cfg)), cfg.screenHeight, Layout(cfg))
         == AfterShipHit(s, Layout(cfg))
  {
    LayoutOnScreen(cfg);
  }
}
