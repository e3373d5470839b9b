/** The fixed geometry of the SpaceWars arena: its size, the dividing border,
    the sizes and speeds of ships and bullets, and the rectangle type that
    ships and bullets share. */
module Arena {

  /** An axis-aligned rectangle with integer corner (x, y) and size w by h,
      as pygame's Rect stores it. */
  datatype Rect = Rect(x: int, y: int, w: int, h: int)

  /** The two players. */
  datatype Side = Red | Yellow

  const WIDTH: int := 1200
  const HEIGHT: int := 600

  /** The vertical border in the middle of the arena: x = 1200 / 2 - 3 = 597, 6 wide. */
  const BORDER: Rect := Rect(WIDTH / 2 - 3, 0, 6, HEIGHT)

  const SHIP_WIDTH: int := 55
  const SHIP_HEIGHT: int := 50
  /** How far a ship moves per frame along each axis whose key is held. */
  const VELOCITY: int := 6
  /** How far a bullet moves per frame. */
  const BULLET_VELOCITY: int := 11
  /** The most bullets one side may have live at a time. */
  const MAX_BULLETS: int := 3
  const BULLET_WIDTH: int := 10
  const BULLET_HEIGHT: int := 5

  /** The point (px, py) lies inside r; the right and bottom edges are outside. */
  predicate Contains(r: Rect, px: int, py: int)
  {
    r.x <= px < r.x + r.w && r.y <= py < r.y + r.h
  }

  /** pygame's `colliderect`, taken to be strict overlap on both axes:
      rectangles that only touch along an edge do not collide. */
  predicate Collides(a: Rect, b: Rect)
  {
    a.x < b.x + b.w && b.x < a.x + a.w && a.y < b.y + b.h && b.y < a.y + a.h
  }

  /** For rectangles of positive size (every ship and bullet here), strict
      overlap is the same as sharing at least one integer point, so touching
      edges (which share none) are not a hit. */
  lemma CollidesIffSharedPoint(a: Rect, b: Rect)
    requires a.w > 0 && a.h > 0 && b.w > 0 && b.h > 0
    ensures Collides(a, b) <==> exists px, py :: Contains(a, px, py) && Contains(b, px, py)
  {
    if Collides(a, b) {
      var px := if a.x < b.x then b.x else a.x;
      var py := if a.y < b.y then b.y else a.y;
      assert Contains(a, px, py) && Contains(b, px, py);
    }
  }
}
