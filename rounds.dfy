/** The state of one round as a value, the events the main loop consumes,
    the winner check, and one whole frame of the main loop as a function of
    the state, the frame's input events and the held keys. */
module Rounds {
  import opened Arena
  import opened Movement
  import opened Bullets

  datatype Key = LAlt | RAlt | OtherKey

  /** The events the main loop reads from the queue: the window's quit
      button, a key press, and the two hit events that bullets post. */
  datatype Event = Quit | KeyDown(key: Key) | RedHit | YellowHit

  /** Sound effects requested of the audio layer. */
  datatype Sound = FireSound | HitSound

  /** Everything `main` keeps between frames, plus the hit events posted by
      the last bullet pass and not yet read back from the queue. */
  datatype Round = Round(red: Rect, yellow: Rect,
                         redBullets: seq<Rect>, yellowBullets: seq<Rect>,
                         redHealth: int, yellowHealth: int,
                         queue: seq<Event>)

  const INITIAL_HEALTH: int := 10

  /** The state `main` starts from, and restarts from after a win. */
  const INITIAL: Round :=
    Round(Rect(100, 250, SHIP_WIDTH, SHIP_HEIGHT), Rect(700, 250, SHIP_WIDTH, SHIP_HEIGHT),
          [], [], INITIAL_HEALTH, INITIAL_HEALTH, [])

  /** The invariant every frame keeps: at most MAX_BULLETS live bullets a
      side, and each ship inside its half of the arena. */
  predicate Valid(r: Round)
  {
    |r.redBullets| <= MAX_BULLETS && |r.yellowBullets| <= MAX_BULLETS &&
    RedRegion(r.red) && YellowRegion(r.yellow)
  }

  /** One event of the event loop. Left Alt fires red, right Alt fires
      yellow, each only below the cap; a hit event costs that side one
      health point. */
  function ApplyEvent(r: Round, e: Event): (r': Round)
    ensures r'.red == r.red && r'.yellow == r.yellow && r'.queue == r.queue
    ensures e == RedHit ==> r' == r.(redHealth := r.redHealth - 1)
    ensures e == YellowHit ==> r' == r.(yellowHealth := r.yellowHealth - 1)
    ensures !e.KeyDown? ==> r'.redBullets == r.redBullets && r'.yellowBullets == r.yellowBullets
    ensures e.KeyDown? ==> r'.redHealth == r.redHealth && r'.yellowHealth == r.yellowHealth
    ensures |r.redBullets| <= MAX_BULLETS ==> |r'.redBullets| <= MAX_BULLETS
    ensures |r.yellowBullets| <= MAX_BULLETS ==> |r'.yellowBullets| <= MAX_BULLETS
  {
    match e
    case Quit => r
    case KeyDown(k) =>
      r.(redBullets := if k == LAlt then Fire(Red, r.redBullets, r.red) else r.redBullets,
         yellowBullets := if k == RAlt then Fire(Yellow, r.yellowBullets, r.yellow) else r.yellowBullets)
    case RedHit => r.(redHealth := r.redHealth - 1)
    case YellowHit => r.(yellowHealth := r.yellowHealth - 1)
  }

  /** The sound an event asks for: a shot that was fired, or a hit. */
  function EventSound(r: Round, e: Event): (s: seq<Sound>)
    ensures |s| <= 1
    ensures s == [FireSound] <==>
      (e == KeyDown(LAlt) && |r.redBullets| < MAX_BULLETS) ||
      (e == KeyDown(RAlt) && |r.yellowBullets| < MAX_BULLETS)
    ensures s == [HitSound] <==> e == RedHit || e == YellowHit
  {
    match e
    case Quit => []
    case KeyDown(k) =>
      if (k == LAlt && |r.redBullets| < MAX_BULLETS) || (k == RAlt && |r.yellowBullets| < MAX_BULLETS)
      then [FireSound] else []
    case RedHit => [HitSound]
    case YellowHit => [HitSound]
  }

  /** The event loop over a frame's events, in queue order. */
  function ApplyEvents(r: Round, es: seq<Event>): Round
    decreases |es|
  {
    if es == [] then r else ApplyEvent(ApplyEvents(r, es[..|es| - 1]), es[|es| - 1])
  }

  /** The sounds the event loop asks for, in order. */
  function EventsSounds(r: Round, es: seq<Event>): seq<Sound>
    decreases |es|
  {
    if es == [] then []
    else EventsSounds(r, es[..|es| - 1]) + EventSound(ApplyEvents(r, es[..|es| - 1]), es[|es| - 1])
  }

  /** The event loop moves neither ship, leaves the queue alone and keeps the
      bullet cap. */
  lemma {:induction false} EventsKeepShipsAndCap(r: Round, es: seq<Event>)
    ensures var r' := ApplyEvents(r, es);
      r'.red == r.red && r'.yellow == r.yellow && r'.queue == r.queue &&
      (|r.redBullets| <= MAX_BULLETS ==> |r'.redBullets| <= MAX_BULLETS) &&
      (|r.yellowBullets| <= MAX_BULLETS ==> |r'.yellowBullets| <= MAX_BULLETS)
    decreases |es|
  {
    if es != [] {
      EventsKeepShipsAndCap(r, es[..|es| - 1]);
    }
  }

  /** Each side's health drops by exactly the number of hit events against
      it; nothing else changes health. */
  lemma {:induction false} HealthCount(r: Round, es: seq<Event>)
    ensures ApplyEvents(r, es).redHealth == r.redHealth - multiset(es)[RedHit]
    ensures ApplyEvents(r, es).yellowHealth == r.yellowHealth - multiset(es)[YellowHit]
    decreases |es|
  {
    if es != [] {
      var init := es[..|es| - 1];
      HealthCount(r, init);
      assert es == init + [es[|es| - 1]];
      assert multiset(es) == multiset(init) + multiset{es[|es| - 1]};
    }
  }

  /** The winner check after the event loop. Both tests run and the second
      assignment wins, so when both healths are 0 the text is "Red Wins!".
      Only exactly 0 counts: a health driven below 0 declares nothing. */
  function WinnerText(redHealth: int, yellowHealth: int): (t: string)
    ensures t == "Red Wins!" <==> yellowHealth == 0
    ensures t == "Yellow Wins!" <==> redHealth == 0 && yellowHealth != 0
    ensures t == "" <==> redHealth != 0 && yellowHealth != 0
  {
    var t := "";
    var t := if redHealth == 0 then "Yellow Wins!" else t;
    if yellowHealth == 0 then "Red Wins!" else t
  }

  /** From a fresh round, ten hits on red (and fewer than ten on yellow)
      leave red at 0 and yellow declared the winner. */
  lemma TenHitsOnRed(es: seq<Event>)
    requires multiset(es)[RedHit] == INITIAL_HEALTH
    requires multiset(es)[YellowHit] < INITIAL_HEALTH
    ensures ApplyEvents(INITIAL, es).redHealth == 0
    ensures WinnerText(ApplyEvents(INITIAL, es).redHealth, ApplyEvents(INITIAL, es).yellowHealth) == "Yellow Wins!"
  {
    HealthCount(INITIAL, es);
  }

  /** Two hits on red while it has 1 health point, read in the same frame,
      take it to -1 without a winner; after that no sequence of events brings
      red back to 0, so yellow can no longer win this round. */
  lemma Overshoot(r: Round, es: seq<Event>)
    requires r.redHealth == 1 && r.yellowHealth != 0
    ensures ApplyEvents(r, [RedHit, RedHit]).redHealth == -1
    ensures WinnerText(-1, r.yellowHealth) == ""
    ensures ApplyEvents(r, [RedHit, RedHit] + es).redHealth < 0
  {
    HealthCount(r, [RedHit, RedHit]);
    HealthCount(r, [RedHit, RedHit] + es);
    assert multiset([RedHit, RedHit] + es) == multiset([RedHit, RedHit]) + multiset(es);
  }

  /** A run of n copies of one event. */
  function Repeat(e: Event, n: nat): seq<Event>
  {
    if n == 0 then [] else Repeat(e, n - 1) + [e]
  }

  /** What one frame returns besides the new state: whether quit was read,
      the sounds asked for, and the winner banner ("" when nobody won). */
  datatype FrameResult = FrameResult(round: Round, quit: bool, sounds: seq<Sound>, banner: string)

  /** One iteration of the main loop, minus drawing: read every queued and
      new event; check for a winner and, on a win, restart from INITIAL
      (the recursive `main()` call), which ends this frame; otherwise settle
      the frame: movement, then bullets. */
  function FrameSpec(r: Round, input: seq<Event>, keys: Keys): (f: FrameResult)
    ensures f.banner != "" ==> f.round == INITIAL && !f.quit
    ensures f.banner == "" ==> f.quit == (Quit in r.queue + input)
  {
    var es := r.queue + input;
    var r1 := ApplyEvents(r.(queue := []), es);
    var sounds := EventsSounds(r.(queue := []), es);
    var banner := WinnerText(r1.redHealth, r1.yellowHealth);
    if banner != "" then FrameResult(INITIAL, false, sounds, banner)
    else FrameResult(Settle(r1, keys), Quit in es, sounds, "")
  }

  /** The rest of a frame in which nobody has won: move red, move yellow,
      then run the bullet pass for red and then for yellow, each against the
      other's moved ship, queueing one hit event per bullet that hit. */
  function Settle(r: Round, keys: Keys): (r': Round)
    ensures r'.redHealth == r.redHealth && r'.yellowHealth == r.yellowHealth
    ensures |r'.redBullets| <= |r.redBullets| && |r'.yellowBullets| <= |r.yellowBullets|
    ensures RedRegion(r.red) ==> RedRegion(r'.red)
    ensures YellowRegion(r.yellow) ==> YellowRegion(r'.yellow)
  {
    var red := RedMoved(keys, r.red);
    var yellow := YellowMoved(keys, r.yellow);
    var redPass := Pass(Red, r.redBullets, yellow);
    var yellowPass := Pass(Yellow, r.yellowBullets, red);
    PassAccounting(Red, r.redBullets, yellow);
    PassAccounting(Yellow, r.yellowBullets, red);
    r.(red := red, yellow := yellow,
       redBullets := redPass.kept, yellowBullets := yellowPass.kept,
       queue := Repeat(YellowHit, redPass.hits) + Repeat(RedHit, yellowPass.hits))
  }

  /** Every frame keeps the invariant: the bullet cap holds and both ships
      stay in their halves, whatever the events and the held keys. */
  lemma FrameKeepsValid(r: Round, input: seq<Event>, keys: Keys)
    requires Valid(r)
    ensures Valid(FrameSpec(r, input, keys).round)
  {
    EventsKeepShipsAndCap(r.(queue := []), r.queue + input);
  }

  /** Settling a frame queues exactly one YellowHit per red bullet that hit
      yellow and one RedHit per yellow bullet that hit red, and the bullets
      kept plus those removed add up to the bullets there were. */
  lemma SettleAccounting(r: Round, keys: Keys)
    ensures var r' := Settle(r, keys);
      var red := Pass(Red, r.redBullets, r'.yellow);
      var yellow := Pass(Yellow, r.yellowBullets, r'.red);
      multiset(r'.queue)[YellowHit] == red.hits &&
      multiset(r'.queue)[RedHit] == yellow.hits &&
      |r'.redBullets| + red.hits + red.exits == |r.redBullets| &&
      |r'.yellowBullets| + yellow.hits + yellow.exits == |r.yellowBullets|
  {
    var r' := Settle(r, keys);
    var red := Pass(Red, r.redBullets, r'.yellow);
    var yellow := Pass(Yellow, r.yellowBullets, r'.red);
    PassAccounting(Red, r.redBullets, r'.yellow);
    PassAccounting(Yellow, r.yellowBullets, r'.red);
    RepeatCount(YellowHit, red.hits, RedHit);
    RepeatCount(RedHit, yellow.hits, YellowHit);
  }

  /** A run of n copies of e holds e exactly n times and nothing else. */
  lemma {:induction false} RepeatCount(e: Event, n: nat, other: Event)
    ensures multiset(Repeat(e, n))[e] == n
    ensures other != e ==> multiset(Repeat(e, n))[other] == 0
    decreases n
  {
    if n > 0 {
      RepeatCount(e, n - 1, other);
    }
  }

  /** Both ships stand on the movement grid. */
  predicate Aligned(r: Round)
  {
    OnGrid(r.red) && OnGrid(r.yellow)
  }

  /** Every frame keeps both ships on the grid: events do not move them,
      movement steps by VELOCITY, and a restart puts them back at the start. */
  lemma FrameKeepsAligned(r: Round, input: seq<Event>, keys: Keys)
    requires Aligned(r)
    ensures Aligned(FrameSpec(r, input, keys).round)
  {
    var r1 := ApplyEvents(r.(queue := []), r.queue + input);
    EventsKeepShipsAndCap(r.(queue := []), r.queue + input);
    MovesKeepGrid(keys, r1.red);
    MovesKeepGrid(keys, r1.yellow);
  }

  /** A run of copies of one event holds nothing else. */
  lemma {:induction false} RepeatOnly(e: Event, n: nat)
    ensures forall x :: x in Repeat(e, n) ==> x == e
    decreases n
  {
    if n > 0 {
      RepeatOnly(e, n - 1);
    }
  }

  /** A frame hands on only hit events: the queue it leaves holds the
      RedHit and YellowHit events its bullet passes posted and nothing else.
      So when no quit was pending, a frame reports a quit only if its own
      input held one. */
  lemma FrameQueuesOnlyHits(r: Round, input: seq<Event>, keys: Keys)
    ensures forall e :: e in FrameSpec(r, input, keys).round.queue ==> e == RedHit || e == YellowHit
    ensures Quit !in FrameSpec(r, input, keys).round.queue
    ensures Quit !in r.queue && FrameSpec(r, input, keys).quit ==> Quit in input
  {
    var f := FrameSpec(r, input, keys);
    var r1 := ApplyEvents(r.(queue := []), r.queue + input);
    if WinnerText(r1.redHealth, r1.yellowHealth) == "" {
      var s := Settle(r1, keys);
      RepeatOnly(YellowHit, Pass(Red, r1.redBullets, s.yellow).hits);
      RepeatOnly(RedHit, Pass(Yellow, r1.yellowBullets, s.red).hits);
      assert f.round == s;
      if f.quit {
        assert Quit in r.queue + input;
      }
    }
  }

  /** Where the main loop ends: the last state, how many frames ran, and
      whether it stopped because a quit was read. */
  datatype PlayResult = PlayResult(round: Round, played: nat, quit: bool)

  /** The main loop over a sequence of frames, each given by its input
      events and held keys: frames run in order until one reports a quit
      (`run = False`, the loop ends once that frame is over) or the frames
      run out. */
  function PlaySpec(r: Round, frames: seq<(seq<Event>, Keys)>): (p: PlayResult)
    ensures p.played <= |frames|
    ensures !p.quit ==> p.played == |frames|
    ensures p.quit ==> 1 <= p.played
    decreases |frames|
  {
    if frames == [] then PlayResult(r, 0, false)
    else
      var f := FrameSpec(r, frames[0].0, frames[0].1);
      if f.quit then PlayResult(f.round, 1, true)
      else
        var rest := PlaySpec(f.round, frames[1..]);
        PlayResult(rest.round, rest.played + 1, rest.quit)
  }

  /** The main loop keeps the invariant and the grid on every frame. */
  lemma {:induction false} PlayKeepsValid(r: Round, frames: seq<(seq<Event>, Keys)>)
    ensures Valid(r) ==> Valid(PlaySpec(r, frames).round)
    ensures Aligned(r) ==> Aligned(PlaySpec(r, frames).round)
    decreases |frames|
  {
    if frames != [] {
      var f := FrameSpec(r, frames[0].0, frames[0].1);
      if Valid(r) {
        FrameKeepsValid(r, frames[0].0, frames[0].1);
      }
      if Aligned(r) {
        FrameKeepsAligned(r, frames[0].0, frames[0].1);
      }
      if !f.quit {
        PlayKeepsValid(f.round, frames[1..]);
      }
    }
  }

  /** The loop stops early only on a quit: when it stops, the last frame it
      ran had a quit event among its input events. */
  lemma {:induction false} PlayStopsOnQuit(r: Round, frames: seq<(seq<Event>, Keys)>)
    requires Quit !in r.queue
    ensures var p := PlaySpec(r, frames);
      p.quit ==> Quit in frames[p.played - 1].0
    decreases |frames|
  {
    if frames != [] {
      var f := FrameSpec(r, frames[0].0, frames[0].1);
      FrameQueuesOnlyHits(r, frames[0].0, frames[0].1);
      if f.quit {
        assert PlaySpec(r, frames) == PlayResult(f.round, 1, true);
      } else {
        var rest := PlaySpec(f.round, frames[1..]);
        assert PlaySpec(r, frames) == PlayResult(rest.round, rest.played + 1, rest.quit);
        PlayStopsOnQuit(f.round, frames[1..]);
        if rest.quit {
          assert frames[1..][rest.played - 1] == frames[rest.played];
        }
      }
    }
  }

  /** Without a quit event anywhere, the loop runs every frame. */
  lemma PlayRunsWithoutQuit(r: Round, frames: seq<(seq<Event>, Keys)>)
    requires Quit !in r.queue
    requires forall i :: 0 <= i < |frames| ==> Quit !in frames[i].0
    ensures !PlaySpec(r, frames).quit && PlaySpec(r, frames).played == |frames|
  {
    PlayStopsOnQuit(r, frames);
  }

  /** With no events pending or arriving, no keys held and no bullets in
      flight, a frame of a round that nobody has won changes nothing. */
  lemma IdleFrame(r: Round)
    requires r.queue == [] && r.redBullets == [] && r.yellowBullets == []
    requires r.redHealth != 0 && r.yellowHealth != 0
    ensures FrameSpec(r, [], NO_KEYS) == FrameResult(r, false, [], "")
  {
    assert r.queue + [] == [];
    assert r.(queue := []) == r;
  }
}
