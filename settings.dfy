/** The configuration values the game reads from `Settings`, the alien sprite and the ship sprite. */
module GameSettings {

  datatype Settings = Settings(
    screenWidth: int,
    screenHeight: int,
    shipLimit: nat,
    bulletsAllowed: nat,
    alienPoints: nat,
    fleetDropSpeed: nat,
    fleetDirection: int,    // the initial direction of the fleet: 1 is right, -1 is left
    alienWidth: nat,        // `alien.rect.size` of the alien image
    alienHeight: nat,
    shipHeight: nat)        // `ship.rect.height` of the ship image
  {
    /** The alien image has a positive size: the fleet layout divides by it. */
    predicate Sized() {
      alienWidth > 0 && alienHeight > 0
    }

    /** The alien image has a positive size and the direction is a unit. */
    predicate Valid() {
      Sized() && (fleetDirection == 1 || fleetDirection == -1)
    }
  }
}
