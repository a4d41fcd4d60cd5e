/** Integer rectangles standing in for pygame's `Rect`, the only geometry the game uses. */
module Geometry {

  /** A rectangle with its top-left corner at (x, y); pygame keeps width and height non-negative. */
  datatype Rect = Rect(x: int, y: int, width: nat, height: nat) {

    function Right(): (r: int) { x + width }

    function Bottom(): (b: int) { y + height }

    /** `Rect.collidepoint`: the left and top edges are inside, the right and bottom edges are not. */
    predicate ContainsPoint(px: int, py: int) {
      x <= px < x + width && y <= py < y + height
    }
  }

  /**
   * `Rect.colliderect`, the default test of `groupcollide` and `spritecollideany`:
   * the interiors intersect, and a rectangle of zero width or height collides with nothing.
   */
  predicate Overlaps(a: Rect, b: Rect) {
    a.width > 0 && a.height > 0 && b.width > 0 && b.height > 0 &&
    a.x < b.Right() && b.x < a.Right() && a.y < b.Bottom() && b.y < a.Bottom()
  }

  /** `spritecollideany(sprite, group)`: some member of the group collides with the sprite. */
  predicate AnyOverlapping(r: Rect, group: seq<Rect>) {
    exists i :: 0 <= i < |group| && Overlaps(r, group[i])
  }
}
