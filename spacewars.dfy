/** The game as the Python program runs it: the locals of `main` become the
    fields of a Game object, and the handlers update them in place. Each
    method is proved against the functions of Movement, Bullets and Rounds. */
module SpaceWars {
  import opened Arena
  import opened Movement
  import opened Bullets
  import opened Rounds

  class Game {
    var red: Rect
    var yellow: Rect
    var redBullets: seq<Rect>
    var yellowBullets: seq<Rect>
    var redHealth: int
    var yellowHealth: int
    /** Hit events posted to the event queue and not yet read. */
    var queue: seq<Event>

    /** The game's state as a value. */
    function State(): Round
      reads this
    {
      Round(red, yellow, redBullets, yellowBullets, redHealth, yellowHealth, queue)
    }

    /** The start of `main`: ships at their starting points, no bullets,
        full health. */
    constructor ()
      ensures State() == INITIAL
    {
      red := Rect(100, 250, SHIP_WIDTH, SHIP_HEIGHT);
      yellow := Rect(700, 250, SHIP_WIDTH, SHIP_HEIGHT);
      redBullets := [];
      yellowBullets := [];
      redHealth := INITIAL_HEALTH;
      yellowHealth := INITIAL_HEALTH;
      queue := [];
    }

    /** The restart after a win: the same assignments as the start of `main`. */
    method Restart()
      modifies this
      ensures State() == INITIAL
    {
      red := Rect(100, 250, SHIP_WIDTH, SHIP_HEIGHT);
      yellow := Rect(700, 250, SHIP_WIDTH, SHIP_HEIGHT);
      redBullets := [];
      yellowBullets := [];
      redHealth := INITIAL_HEALTH;
      yellowHealth := INITIAL_HEALTH;
      queue := [];
    }

    /** `handle_red_movement`: four guarded steps, each reading the position
        the previous ones left. */
    method HandleRedMovement(keys: Keys)
      modifies this
      ensures State() == old(State()).(red := RedMoved(keys, old(red)))
    {
      if keys.a && red.x - VELOCITY >= 0 {
        red := red.(x := red.x - VELOCITY);
      }
      if keys.d && red.x + SHIP_WIDTH + VELOCITY < BORDER.x {
        red := red.(x := red.x + VELOCITY);
      }
      if keys.w && red.y - VELOCITY >= 0 {
        red := red.(y := red.y - VELOCITY);
      }
      if keys.s && red.y + SHIP_HEIGHT + VELOCITY < HEIGHT {
        red := red.(y := red.y + VELOCITY);
      }
    }

    /** `handle_yellow_movement`: the same shape with yellow's guards. */
    method HandleYellowMovement(keys: Keys)
      modifies this
      ensures State() == old(State()).(yellow := YellowMoved(keys, old(yellow)))
    {
      if keys.left && yellow.x - VELOCITY > BORDER.x + BORDER.w {
        yellow := yellow.(x := yellow.x - VELOCITY);
      }
      if keys.right && yellow.x + SHIP_WIDTH + VELOCITY <= WIDTH {
        yellow := yellow.(x := yellow.x + VELOCITY);
      }
      if keys.up && yellow.y - VELOCITY >= 0 {
        yellow := yellow.(y := yellow.y - VELOCITY);
      }
      if keys.down && yellow.y + SHIP_HEIGHT + VELOCITY < HEIGHT {
        yellow := yellow.(y := yellow.y + VELOCITY);
      }
    }

    /** The body of the event loop for one event. The source tests the
        event's type with four separate `if`s; the types are distinct, so
        exactly one case applies. */
    method HandleEvent(event: Event) returns (quitSeen: bool, sound: seq<Sound>)
      modifies this`redBullets, this`yellowBullets, this`redHealth, this`yellowHealth
      ensures State() == ApplyEvent(old(State()), event)
      ensures quitSeen == (event == Quit)
      ensures sound == EventSound(old(State()), event)
    {
      quitSeen, sound := false, [];
      match event {
        case Quit =>
          quitSeen := true;
        case KeyDown(key) =>
          var redCheck := |redBullets| < MAX_BULLETS;
          if key == LAlt && redCheck {
            redBullets := redBullets + [Rect(red.x + red.w, red.y + red.h / 2, BULLET_WIDTH, BULLET_HEIGHT)];
            sound := [FireSound];
          }
          var yellowCheck := |yellowBullets| < MAX_BULLETS;
          if key == RAlt && yellowCheck {
            yellowBullets := yellowBullets + [Rect(yellow.x, yellow.y + yellow.h / 2, BULLET_WIDTH, BULLET_HEIGHT)];
            sound := [FireSound];
          }
        case RedHit =>
          redHealth := redHealth - 1;
          sound := [HitSound];
        case YellowHit =>
          yellowHealth := yellowHealth - 1;
          sound := [HitSound];
      }
    }

    /** The event loop of one frame: every event, in queue order. */
    method HandleEvents(events: seq<Event>) returns (quit: bool, sounds: seq<Sound>)
      modifies this`redBullets, this`yellowBullets, this`redHealth, this`yellowHealth
      ensures State() == ApplyEvents(old(State()), events)
      ensures quit == (Quit in events)
      ensures sounds == EventsSounds(old(State()), events)
    {
      quit := false;
      sounds := [];
      ghost var start := State();
      var i := 0;
      while i < |events|
        invariant 0 <= i <= |events|
        invariant State() == ApplyEvents(start, events[..i])
        invariant quit == (Quit in events[..i])
        invariant sounds == EventsSounds(start, events[..i])
      {
        assert events[..i + 1] == events[..i] + [events[i]];
        assert events[..i + 1][..i] == events[..i];
        var quitSeen, sound := HandleEvent(events[i]);
        quit := quit || quitSeen;
        sounds := sounds + sound;
        i := i + 1;
      }
      assert events[..i] == events;
    }

    /** The first loop of `handle_bullets`: advance each red bullet, post a
        YellowHit and remove it if it hits yellow, else remove it if it has
        left the screen. Python removes with `list.remove(bullet)`, which
        deletes the first rectangle equal to the bullet; the model deletes
        the bullet's own slot, which differs only when an earlier bullet has
        the very same position and size. */
    method HandleRedBullets()
      modifies this`redBullets, this`queue
      ensures var p := Pass(Red, old(redBullets), yellow);
        redBullets == p.kept && queue == old(queue) + Repeat(YellowHit, p.hits)
    {
      var ship := yellow;
      ghost var orig := redBullets;
      ghost var done: seq<Rect> := [];
      ghost var rest := redBullets;
      ghost var hits := 0;
      var j := 0;
      while j < |redBullets|
        invariant redBullets == done + rest && j == |done|
        invariant Pass(Red, orig, ship).kept == done + Pass(Red, rest, ship).kept
        invariant hits + Pass(Red, rest, ship).hits == Pass(Red, orig, ship).hits
        invariant queue == old(queue) + Repeat(YellowHit, hits)
        decreases |rest|
      {
        var bullet := redBullets[j];
        bullet := bullet.(x := bullet.x + BULLET_VELOCITY);
        Slots(done, rest, bullet);
        redBullets := redBullets[j := bullet];
        if Collides(ship, bullet) {
          queue := queue + [YellowHit];
          redBullets := redBullets[..j] + redBullets[j + 1..];
          // the iterator still moves on, past the bullet that slid into slot j
          if j < |redBullets| {
            DropStep(Red, orig, ship, done, rest, hits);
            done, rest := done + [rest[1]], rest[2..];
            j := j + 1;
          } else {
            DropLast(Red, orig, ship, done, rest, hits);
            rest := [];
          }
          hits := hits + 1;
        } else if bullet.x >= WIDTH {
          redBullets := redBullets[..j] + redBullets[j + 1..];
          if j < |redBullets| {
            DropStep(Red, orig, ship, done, rest, hits);
            done, rest := done + [rest[1]], rest[2..];
            j := j + 1;
          } else {
            DropLast(Red, orig, ship, done, rest, hits);
            rest := [];
          }
        } else {
          KeepStep(Red, orig, ship, done, rest, hits);
          done, rest := done + [bullet], rest[1..];
          j := j + 1;
        }
      }
    }

    /** The second loop of `handle_bullets`: the same for yellow bullets,
        moving left, against red, with exit test `x <= 0`. */
    method HandleYellowBullets()
      modifies this`yellowBullets, this`queue
      ensures var p := Pass(Yellow, old(yellowBullets), red);
        yellowBullets == p.kept && queue == old(queue) + Repeat(RedHit, p.hits)
    {
      var ship := red;
      ghost var orig := yellowBullets;
      ghost var done: seq<Rect> := [];
      ghost var rest := yellowBullets;
      ghost var hits := 0;
      var j := 0;
      while j < |yellowBullets|
        invariant yellowBullets == done + rest && j == |done|
        invariant Pass(Yellow, orig, ship).kept == done + Pass(Yellow, rest, ship).kept
        invariant hits + Pass(Yellow, rest, ship).hits == Pass(Yellow, orig, ship).hits
        invariant queue == old(queue) + Repeat(RedHit, hits)
        decreases |rest|
      {
        var bullet := yellowBullets[j];
        bullet := bullet.(x := bullet.x - BULLET_VELOCITY);
        Slots(done, rest, bullet);
        yellowBullets := yellowBullets[j := bullet];
        if Collides(ship, bullet) {
          queue := queue + [RedHit];
          yellowBullets := yellowBullets[..j] + yellowBullets[j + 1..];
          // the iterator still moves on, past the bullet that slid into slot j
          if j < |yellowBullets| {
            DropStep(Yellow, orig, ship, done, rest, hits);
            done, rest := done + [rest[1]], rest[2..];
            j := j + 1;
          } else {
            DropLast(Yellow, orig, ship, done, rest, hits);
            rest := [];
          }
          hits := hits + 1;
        } else if bullet.x <= 0 {
          yellowBullets := yellowBullets[..j] + yellowBullets[j + 1..];
          if j < |yellowBullets| {
            DropStep(Yellow, orig, ship, done, rest, hits);
            done, rest := done + [rest[1]], rest[2..];
            j := j + 1;
          } else {
            DropLast(Yellow, orig, ship, done, rest, hits);
            rest := [];
          }
        } else {
          KeepStep(Yellow, orig, ship, done, rest, hits);
          done, rest := done + [bullet], rest[1..];
          j := j + 1;
        }
      }
    }

    /** `handle_bullets`: red's bullets first, then yellow's. */
    method HandleBullets()
      modifies this
      ensures var rp := Pass(Red, old(redBullets), old(yellow));
        var yp := Pass(Yellow, old(yellowBullets), old(red));
        State() == old(State()).(redBullets := rp.kept, yellowBullets := yp.kept,
                                 queue := old(queue) + Repeat(YellowHit, rp.hits) + Repeat(RedHit, yp.hits))
    {
      HandleRedBullets();
      HandleYellowBullets();
    }

    /** One iteration of the main loop, minus drawing and pacing: read the
        queued hit events and this frame's input, check for a winner (and
        restart on a win), move both ships, run the bullets. */
    method Frame(input: seq<Event>, keys: Keys) returns (quit: bool, sounds: seq<Sound>, banner: string)
      modifies this
      ensures FrameResult(State(), quit, sounds, banner) == FrameSpec(old(State()), input, keys)
    {
      ghost var r := State();
      var events := queue + input;
      queue := [];
      quit, sounds := HandleEvents(events);
      ghost var r1 := State();
      assert r1 == ApplyEvents(r.(queue := []), r.queue + input);
      banner := "";
      if redHealth == 0 {
        banner := "Yellow Wins!";
      }
      if yellowHealth == 0 {
        banner := "Red Wins!";
      }
      assert banner == WinnerText(r1.redHealth, r1.yellowHealth);
      if banner != "" {
        // the recursive call to main() starts a fresh loop; this frame's
        // quit is never looked at again
        Restart();
        quit := false;
        return;
      }
      HandleRedMovement(keys);
      HandleYellowMovement(keys);
      HandleBullets();
      assert State() == Settle(r1, keys);
    }

    /** The main loop over a sequence of frames, each given by its input
        events and held keys, as `PlaySpec` describes it. */
    method Play(frames: seq<(seq<Event>, Keys)>) returns (played: nat, quit: bool)
      modifies this
      ensures PlayResult(State(), played, quit) == PlaySpec(old(State()), frames)
      ensures Valid(old(State())) ==> Valid(State())
      ensures Aligned(old(State())) ==> Aligned(State())
    {
      ghost var start := State();
      var run := true;
      played := 0;
      while run && played < |frames|
        invariant played <= |frames|
        invariant run ==> var p := PlaySpec(State(), frames[played..]);
          PlaySpec(start, frames) == p.(played := p.played + played)
        invariant !run ==> PlaySpec(start, frames) == PlayResult(State(), played, true)
      {
        var frameQuit, sounds, banner := Frame(frames[played].0, frames[played].1);
        assert frames[played..][1..] == frames[played + 1..];
        run := !frameQuit;
        played := played + 1;
      }
      quit := !run;
      PlayKeepsValid(start, frames);
    }
  }
}
