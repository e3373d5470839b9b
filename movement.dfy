/** Ship movement: each held direction key moves the ship by VELOCITY when
    that direction's bounds guard passes. The guards are tested one after
    another against the position as already updated by the earlier ones. */
module Movement {
  import opened Arena

  /** The held state of the eight movement keys, as sampled once per frame.
      Red uses A, D, W, S; yellow uses the arrow keys. */
  datatype Keys = Keys(a: bool, d: bool, w: bool, s: bool,
                       left: bool, right: bool, up: bool, down: bool)

  const NO_KEYS: Keys := Keys(false, false, false, false, false, false, false, false)

  /** Red's half of the arena: left of the border, inside the screen. */
  predicate RedRegion(ship: Rect)
  {
    0 <= ship.x && ship.x + SHIP_WIDTH < BORDER.x &&
    0 <= ship.y && ship.y + SHIP_HEIGHT < HEIGHT
  }

  /** Yellow's half of the arena: right of the border, inside the screen. */
  predicate YellowRegion(ship: Rect)
  {
    ship.x > BORDER.x + BORDER.w && ship.x + SHIP_WIDTH <= WIDTH &&
    0 <= ship.y && ship.y + SHIP_HEIGHT < HEIGHT
  }

  /** A step of at most one VELOCITY in either direction. */
  predicate OneStep(before: int, after: int)
  {
    after == before - VELOCITY || after == before || after == before + VELOCITY
  }

  /** `handle_red_movement`: left, right, up, down in that order. Left uses
      `>= 0`; right and down use a strict `<` against the border and the
      bottom edge. */
  function RedMoved(keys: Keys, ship: Rect): (r: Rect)
    ensures r.w == ship.w && r.h == ship.h
    ensures OneStep(ship.x, r.x) && OneStep(ship.y, r.y)
    ensures RedRegion(ship) ==> RedRegion(r)
    ensures !keys.a && !keys.d ==> r.x == ship.x
    ensures !keys.w && !keys.s ==> r.y == ship.y
    // holding left and right together cancels out once left has room
    ensures keys.a && keys.d && RedRegion(ship) && ship.x >= VELOCITY ==> r.x == ship.x
    ensures keys.w && keys.s && RedRegion(ship) && ship.y >= VELOCITY ==> r.y == ship.y
    // without room for the first step of the pair, only the second one moves
    ensures keys.a && keys.d && RedRegion(ship) && ship.x < VELOCITY ==> r.x == ship.x + VELOCITY
    ensures keys.w && keys.s && RedRegion(ship) && ship.y < VELOCITY ==> r.y == ship.y + VELOCITY
  {
    var s1 := if keys.a && ship.x - VELOCITY >= 0 then ship.(x := ship.x - VELOCITY) else ship;
    var s2 := if keys.d && s1.x + SHIP_WIDTH + VELOCITY < BORDER.x then s1.(x := s1.x + VELOCITY) else s1;
    var s3 := if keys.w && s2.y - VELOCITY >= 0 then s2.(y := s2.y - VELOCITY) else s2;
    if keys.s && s3.y + SHIP_HEIGHT + VELOCITY < HEIGHT then s3.(y := s3.y + VELOCITY) else s3
  }

  /** `handle_yellow_movement`: left, right, up, down in that order. Unlike
      red's, the left guard is a strict `>` against the border's right face
      and the right guard is `<=` against the screen edge. */
  function YellowMoved(keys: Keys, ship: Rect): (r: Rect)
    ensures r.w == ship.w && r.h == ship.h
    ensures OneStep(ship.x, r.x) && OneStep(ship.y, r.y)
    ensures YellowRegion(ship) ==> YellowRegion(r)
    ensures !keys.left && !keys.right ==> r.x == ship.x
    ensures !keys.up && !keys.down ==> r.y == ship.y
    ensures (keys.left && keys.right && YellowRegion(ship) && ship.x - VELOCITY > BORDER.x + BORDER.w)
      ==> r.x == ship.x
    ensures keys.up && keys.down && YellowRegion(ship) && ship.y >= VELOCITY ==> r.y == ship.y
    ensures (keys.left && keys.right && YellowRegion(ship) && ship.x - VELOCITY <= BORDER.x + BORDER.w)
      ==> r.x == ship.x + VELOCITY
    ensures keys.up && keys.down && YellowRegion(ship) && ship.y < VELOCITY ==> r.y == ship.y + VELOCITY
  {
    var s1 := if keys.left && ship.x - VELOCITY > BORDER.x + BORDER.w then ship.(x := ship.x - VELOCITY) else ship;
    var s2 := if keys.right && s1.x + SHIP_WIDTH + VELOCITY <= WIDTH then s1.(x := s1.x + VELOCITY) else s1;
    var s3 := if keys.up && s2.y - VELOCITY >= 0 then s2.(y := s2.y - VELOCITY) else s2;
    if keys.down && s3.y + SHIP_HEIGHT + VELOCITY < HEIGHT then s3.(y := s3.y + VELOCITY) else s3
  }

  /** Both ships start at coordinates that are 4 more than a multiple of
      VELOCITY (red at (100, 250), yellow at (700, 250)), and every move is
      by exactly VELOCITY, so the ships only ever stand on this grid. */
  predicate OnGrid(ship: Rect)
  {
    ship.x % VELOCITY == 4 && ship.y % VELOCITY == 4
  }

  /** Movement keeps each ship on the grid. */
  lemma MovesKeepGrid(keys: Keys, ship: Rect)
    requires OnGrid(ship)
    ensures OnGrid(RedMoved(keys, ship)) && OnGrid(YellowMoved(keys, ship))
  {
    // each handler moves a coordinate by -VELOCITY, 0 or +VELOCITY
    assert (ship.x - VELOCITY) % VELOCITY == 4 && (ship.x + VELOCITY) % VELOCITY == 4;
    assert (ship.y - VELOCITY) % VELOCITY == 4 && (ship.y + VELOCITY) % VELOCITY == 4;
  }

  /** Where a ship on the grid can actually stand. Red stops 4 pixels short
      of the border (x + 55 at most 593) and 4 short of the left edge;
      yellow stops 1 pixel right of the border and 1 pixel short of the
      right edge (x + 55 at most 1199), although its `<=` guard would allow
      the edge itself; both stop 4 pixels short of the top edge and 6 short
      of the bottom edge. Each bound is met by a position on the grid
      inside the region. */
  lemma GridLimits(ship: Rect)
    requires OnGrid(ship)
    ensures RedRegion(ship) ==>
              4 <= ship.x && ship.x + SHIP_WIDTH <= BORDER.x - 4 &&
              4 <= ship.y && ship.y + SHIP_HEIGHT <= HEIGHT - 6
    ensures YellowRegion(ship) ==>
              BORDER.x + BORDER.w + 1 <= ship.x && ship.x + SHIP_WIDTH <= WIDTH - 1 &&
              4 <= ship.y && ship.y + SHIP_HEIGHT <= HEIGHT - 6
    ensures var lo, hi := Rect(4, 4, SHIP_WIDTH, SHIP_HEIGHT), Rect(538, 544, SHIP_WIDTH, SHIP_HEIGHT);
      OnGrid(lo) && RedRegion(lo) && OnGrid(hi) && RedRegion(hi)
    ensures var lo, hi := Rect(604, 4, SHIP_WIDTH, SHIP_HEIGHT), Rect(1144, 544, SHIP_WIDTH, SHIP_HEIGHT);
      OnGrid(lo) && YellowRegion(lo) && OnGrid(hi) && YellowRegion(hi)
  {
  }
}
