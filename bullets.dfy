/** Bullets: firing (capped at MAX_BULLETS per side) and the per-frame pass
    of `handle_bullets` that advances each bullet, checks it against the
    opposing ship, and drops it on a hit or when it has left the screen. */
module Bullets {
  import opened Arena

  /** Where a newly fired bullet appears: red fires from its right edge,
      yellow from its left edge, both half-way down the ship. */
  function Muzzle(side: Side, ship: Rect): (b: Rect)
    ensures b.w == BULLET_WIDTH && b.h == BULLET_HEIGHT
    ensures ship.h >= 0 ==> ship.y <= b.y <= ship.y + ship.h
  {
    match side
    case Red => Rect(ship.x + ship.w, ship.y + ship.h / 2, BULLET_WIDTH, BULLET_HEIGHT)
    case Yellow => Rect(ship.x, ship.y + ship.h / 2, BULLET_WIDTH, BULLET_HEIGHT)
  }

  /** A fire key press: below the cap one bullet is appended at the muzzle;
      at the cap the list is left alone. */
  function Fire(side: Side, bullets: seq<Rect>, ship: Rect): (r: seq<Rect>)
    ensures |bullets| <= |r| <= |bullets| + 1 && r[..|bullets|] == bullets
    ensures |r| > |bullets| <==> |bullets| < MAX_BULLETS
    ensures |r| > |bullets| ==> r[|bullets|] == Muzzle(side, ship)
    ensures |bullets| <= MAX_BULLETS ==> |r| <= MAX_BULLETS
  {
    if |bullets| < MAX_BULLETS then bullets + [Muzzle(side, ship)] else bullets
  }

  /** One frame of travel: red bullets move right, yellow bullets left. */
  function Advance(side: Side, b: Rect): Rect
  {
    match side
    case Red => b.(x := b.x + BULLET_VELOCITY)
    case Yellow => b.(x := b.x - BULLET_VELOCITY)
  }

  /** The exit test for an advanced bullet: `x >= WIDTH` for red, `x <= 0` for yellow. */
  predicate OffScreen(side: Side, b: Rect)
  {
    match side
    case Red => b.x >= WIDTH
    case Yellow => b.x <= 0
  }

  /** The bullets left after a pass, with how many were removed by a hit
      (each posting one hit event) and how many by leaving the screen. */
  datatype PassResult = PassResult(kept: seq<Rect>, hits: nat, exits: nat)

  /** Whether an advanced bullet is dropped this frame: collision is tested
      first, the exit test only when there is no hit. */
  predicate Dropped(side: Side, b: Rect, target: Rect)
  {
    Collides(target, b) || OffScreen(side, b)
  }

  /** The pass of `handle_bullets` over one side's list, with `target` the
      opposing ship. Python's list iterator keeps a position that advances on
      every step, so when the current bullet is removed the bullet that
      slides into its slot is skipped: it stays in the list neither advanced
      nor checked this frame. */
  function Pass(side: Side, bs: seq<Rect>, target: Rect): PassResult
    decreases |bs|
  {
    if bs == [] then PassResult([], 0, 0)
    else
      var b := Advance(side, bs[0]);
      if !Dropped(side, b, target) then
        var rest := Pass(side, bs[1..], target);
        PassResult([b] + rest.kept, rest.hits, rest.exits)
      else
        var hit := if Collides(target, b) then 1 else 0;
        if |bs| == 1 then PassResult([], hit, 1 - hit)
        else
          var rest := Pass(side, bs[2..], target);
          PassResult([bs[1]] + rest.kept, rest.hits + hit, rest.exits + 1 - hit)
  }

  /** The pass when the first bullet stays: it is advanced and the pass
      goes on with the next one. */
  lemma PassKeepStep(side: Side, bs: seq<Rect>, target: Rect)
    requires bs != [] && !Dropped(side, Advance(side, bs[0]), target)
    ensures Pass(side, bs, target).kept == [Advance(side, bs[0])] + Pass(side, bs[1..], target).kept
    ensures Pass(side, bs, target).hits == Pass(side, bs[1..], target).hits
  {
  }

  /** The pass when the first bullet is dropped: the second bullet is kept
      as it is and the pass goes on with the third. */
  lemma PassDropStep(side: Side, bs: seq<Rect>, target: Rect)
    requires bs != [] && Dropped(side, Advance(side, bs[0]), target)
    ensures var hit := if Collides(target, Advance(side, bs[0])) then 1 else 0;
      Pass(side, bs, target).hits == hit + (if |bs| == 1 then 0 else Pass(side, bs[2..], target).hits)
    ensures |bs| == 1 ==> Pass(side, bs, target).kept == []
    ensures |bs| > 1 ==> Pass(side, bs, target).kept == [bs[1]] + Pass(side, bs[2..], target).kept
  {
  }

  /** A loop over the pass keeps `done`, the bullets already settled, and
      `rest`, the part of the input still to come. One step when the next
      bullet stays: it joins `done`, advanced. */
  lemma KeepStep(side: Side, bs: seq<Rect>, target: Rect, done: seq<Rect>, rest: seq<Rect>, hits: nat)
    requires rest != [] && !Dropped(side, Advance(side, rest[0]), target)
    requires Pass(side, bs, target).kept == done + Pass(side, rest, target).kept
    requires hits + Pass(side, rest, target).hits == Pass(side, bs, target).hits
    ensures Pass(side, bs, target).kept == (done + [Advance(side, rest[0])]) + Pass(side, rest[1..], target).kept
    ensures hits + Pass(side, rest[1..], target).hits == Pass(side, bs, target).hits
  {
    PassKeepStep(side, rest, target);
    var tail := Pass(side, rest[1..], target).kept;
    assert done + ([Advance(side, rest[0])] + tail) == (done + [Advance(side, rest[0])]) + tail;
  }

  /** One step when the next bullet is dropped: the bullet after it is
      skipped and joins `done` untouched. */
  lemma DropStep(side: Side, bs: seq<Rect>, target: Rect, done: seq<Rect>, rest: seq<Rect>, hits: nat)
    requires |rest| >= 2 && Dropped(side, Advance(side, rest[0]), target)
    requires Pass(side, bs, target).kept == done + Pass(side, rest, target).kept
    requires hits + Pass(side, rest, target).hits == Pass(side, bs, target).hits
    ensures Pass(side, bs, target).kept == (done + [rest[1]]) + Pass(side, rest[2..], target).kept
    ensures var hit := if Collides(target, Advance(side, rest[0])) then 1 else 0;
      hits + hit + Pass(side, rest[2..], target).hits == Pass(side, bs, target).hits
  {
    PassDropStep(side, rest, target);
    var tail := Pass(side, rest[2..], target).kept;
    assert done + ([rest[1]] + tail) == (done + [rest[1]]) + tail;
  }

  /** One step when the last bullet is dropped: the pass is over. */
  lemma DropLast(side: Side, bs: seq<Rect>, target: Rect, done: seq<Rect>, rest: seq<Rect>, hits: nat)
    requires |rest| == 1 && Dropped(side, Advance(side, rest[0]), target)
    requires Pass(side, bs, target).kept == done + Pass(side, rest, target).kept
    requires hits + Pass(side, rest, target).hits == Pass(side, bs, target).hits
    ensures Pass(side, bs, target).kept == done
    ensures var hit := if Collides(target, Advance(side, rest[0])) then 1 else 0;
      hits + hit == Pass(side, bs, target).hits
  {
    PassDropStep(side, rest, target);
  }

  /** The list after writing the advanced bullet into slot |done|, and after
      then deleting that slot. */
  lemma Slots(done: seq<Rect>, rest: seq<Rect>, b: Rect)
    requires rest != []
    ensures (done + rest)[|done| := b] == (done + [b]) + rest[1..]
    ensures var s := (done + [b]) + rest[1..]; s[..|done|] + s[|done| + 1..] == done + rest[1..]
    ensures |rest| >= 2 ==> done + rest[1..] == (done + [rest[1]]) + rest[2..]
  {
    var s := (done + [b]) + rest[1..];
    assert s[..|done|] == done;
    assert s[|done| + 1..] == rest[1..];
    if |rest| >= 2 {
      assert rest[1..] == [rest[1]] + rest[2..];
    }
  }

  /** Every bullet is accounted for once: kept, removed by a hit, or removed
      by leaving the screen. In particular a pass never adds bullets, and the
      hit events it posts are exactly the bullets it removed by collision. */
  lemma {:induction false} PassAccounting(side: Side, bs: seq<Rect>, target: Rect)
    ensures var r := Pass(side, bs, target); |r.kept| + r.hits + r.exits == |bs|
    decreases |bs|
  {
    if bs != [] {
      var b := Advance(side, bs[0]);
      if !Dropped(side, b, target) {
        PassAccounting(side, bs[1..], target);
      } else if |bs| > 1 {
        PassAccounting(side, bs[2..], target);
      }
    }
  }

  /** A kept bullet is either advanced by one bullet step or, skipped after a
      removal, untouched. */
  predicate FromBullet(side: Side, original: Rect, b: Rect)
  {
    b == Advance(side, original) || b == original
  }

  /** Every bullet the pass keeps comes from the input list, moved by exactly
      BULLET_VELOCITY in its side's direction or not at all; y, width and
      height never change. */
  lemma {:induction false} PassKeepsShape(side: Side, bs: seq<Rect>, target: Rect)
    ensures forall b :: b in Pass(side, bs, target).kept ==>
              exists o :: o in bs && FromBullet(side, o, b)
    decreases |bs|
  {
    if bs != [] {
      var b := Advance(side, bs[0]);
      if !Dropped(side, b, target) {
        PassKeepsShape(side, bs[1..], target);
        forall k | k in Pass(side, bs, target).kept
          ensures exists o :: o in bs && FromBullet(side, o, k)
        {
          if k != b {
            var o :| o in bs[1..] && FromBullet(side, o, k);
          } else {
            assert FromBullet(side, bs[0], k);
          }
        }
      } else if |bs| > 1 {
        PassKeepsShape(side, bs[2..], target);
        forall k | k in Pass(side, bs, target).kept
          ensures exists o :: o in bs && FromBullet(side, o, k)
        {
          if k != bs[1] {
            var o :| o in bs[2..] && FromBullet(side, o, k);
          } else {
            assert FromBullet(side, bs[1], k);
          }
        }
      }
    }
  }

  /** When no bullet would be dropped, the pass advances every bullet by one
      step, keeps them all in order, and posts no hit. */
  lemma {:induction false} PassWithoutDrops(side: Side, bs: seq<Rect>, target: Rect)
    requires forall i :: 0 <= i < |bs| ==> !Dropped(side, Advance(side, bs[i]), target)
    ensures var r := Pass(side, bs, target);
      r.hits == 0 && r.exits == 0 && |r.kept| == |bs| &&
      forall i :: 0 <= i < |bs| ==> r.kept[i] == Advance(side, bs[i])
    decreases |bs|
  {
    if bs != [] {
      assert forall i :: 0 <= i < |bs[1..]| ==> bs[1..][i] == bs[i + 1];
      PassWithoutDrops(side, bs[1..], target);
    }
  }

  /** A lone bullet: a collision removes it and posts exactly one hit, even
      if it has also left the screen; otherwise it is removed exactly when it
      is off-screen after advancing. */
  lemma LoneBullet(side: Side, b: Rect, target: Rect)
    ensures var a := Advance(side, b); var r := Pass(side, [b], target);
      (Collides(target, a) ==> r == PassResult([], 1, 0)) &&
      (!Collides(target, a) ==> (r.kept == [] <==> OffScreen(side, a)) && r.hits == 0)
  {
  }

  /** The skip in action: two red bullets that both leave the screen this
      frame; the first is removed and the second stays, unmoved, until the
      next frame. */
  lemma SkipAfterRemoval()
    ensures Pass(Red, [Rect(1190, 100, 10, 5), Rect(1195, 300, 10, 5)], Rect(700, 250, 55, 50))
         == PassResult([Rect(1195, 300, 10, 5)], 0, 1)
  {
  }
}
