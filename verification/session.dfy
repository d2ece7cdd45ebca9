/**
 A game session: the initial state followed by any interleaving of timer
 ticks and key presses, each applied atomically. This module states the
 invariant every reachable state keeps and what holds along a whole run.
 */
module Session {
  import opened Board
  import opened KeyInput
  import Ticks

  /* Java's `int` range; the model's integers are unbounded. */
  const INT_MIN: int := -0x8000_0000
  const INT_MAX: int := 0x7fff_ffff

  /* One thing the event thread delivers: a timer tick with the two random
     draws `locateApple` would make, or a key press. */
  datatype Event = Timer(rx: int, ry: int) | Press(key: Key)

  predicate ValidEvent(e: Event)
  {
    e.Timer? ==> ValidDraw(e.rx) && ValidDraw(e.ry)
  }

  /**
   The invariant of every state reached from `initGame` without an exception:
   one heading, a length that is a valid index, every stored coordinate on
   the grid and at most two cells off the board, the apple on an apple cell,
   and while the game runs a head at most one cell off the board.
   */
  predicate Inv(b: Board)
  {
    && OneDirection(b)
    && 3 <= b.dots < ALL_DOTS
    && (forall i :: 0 <= i < ALL_DOTS ==>
          OnGrid(b.x[i], -2 * DOT_SIZE, B_WIDTH + DOT_SIZE) &&
          OnGrid(b.y[i], -2 * DOT_SIZE, B_HEIGHT + DOT_SIZE))
    && OnGrid(b.appleX, 0, (RAND_POS - 1) * DOT_SIZE)
    && OnGrid(b.appleY, 0, (RAND_POS - 1) * DOT_SIZE)
    && (b.inGame ==> -DOT_SIZE <= b.x[0] <= B_WIDTH && -DOT_SIZE <= b.y[0] <= B_HEIGHT)
  }

  lemma InitGameInv(rx: int, ry: int)
    requires ValidDraw(rx) && ValidDraw(ry)
    ensures Inv(InitGame(rx, ry))
  {
  }

  lemma KeyPressedInv(b: Board, k: Key)
    requires Inv(b)
    ensures Inv(KeyPressed(b, k))
  {
  }

  /* A tick either throws or keeps the invariant. */
  lemma {:induction false} ActionPerformedInv(b: Board, rx: int, ry: int)
    requires Inv(b) && ValidDraw(rx) && ValidDraw(ry)
    ensures ActionPerformed(b, rx, ry).Ok? ==> Inv(ActionPerformed(b, rx, ry).board)
  {
    var o := ActionPerformed(b, rx, ry);
    if b.inGame && o.Ok? {
      Ticks.TickEffect(b, rx, ry);
      var c := o.board;
      forall i | 0 <= i < ALL_DOTS
        ensures OnGrid(c.x[i], -2 * DOT_SIZE, B_WIDTH + DOT_SIZE)
        ensures OnGrid(c.y[i], -2 * DOT_SIZE, B_HEIGHT + DOT_SIZE)
      {
        if i == 0 {
          assert c.x[0] == b.x[0] + DOT_SIZE * StepX(Heading(b));
          assert c.y[0] == b.y[0] + DOT_SIZE * StepY(Heading(b));
        } else if i <= c.dots {
          assert c.x[i] == b.x[i - 1] && c.y[i] == b.y[i - 1];
        } else {
          assert c.x[i] == b.x[i] && c.y[i] == b.y[i];
        }
      }
      if c.inGame {
        assert InBounds(b.x[0], b.y[0]);
      }
    }
  }

  /**
   Every value a reachable state holds, and every value the next tick
   computes from it (`dots + 1`, a head coordinate plus or minus
   `DOT_SIZE`), lies in Java's `int` range, so 32-bit wrap-around never
   occurs in the source.
   */
  lemma InvFitsInt(b: Board)
    requires Inv(b)
    ensures INT_MIN <= b.dots + 1 <= INT_MAX
    ensures INT_MIN <= b.x[0] - DOT_SIZE && b.x[0] + DOT_SIZE <= INT_MAX
    ensures INT_MIN <= b.y[0] - DOT_SIZE && b.y[0] + DOT_SIZE <= INT_MAX
    ensures forall i :: 0 <= i < ALL_DOTS ==> INT_MIN <= b.x[i] <= INT_MAX && INT_MIN <= b.y[i] <= INT_MAX
    ensures INT_MIN <= b.appleX <= INT_MAX && INT_MIN <= b.appleY <= INT_MAX
  {
  }

  /**
   Apply a run of events to a board. The run stops at the first tick that
   throws; `Ok` carries the state after the last event.
   */
  function Replay(b: Board, events: seq<Event>): (o: Outcome)
    requires forall e :: e in events ==> ValidEvent(e)
    decreases |events|
  {
    if |events| == 0 then Ok(b)
    else
      assert events[0] in events && ValidEvent(events[0]);
      match events[0]
      case Press(k) => Replay(KeyPressed(b, k), events[1..])
      case Timer(rx, ry) =>
        match ActionPerformed(b, rx, ry)
        case OutOfBounds(c) => OutOfBounds(c)
        case Ok(c) => Replay(c, events[1..])
  }

  /* The invariant holds after every run that does not throw. */
  lemma {:induction false} ReplayInv(b: Board, events: seq<Event>)
    requires forall e :: e in events ==> ValidEvent(e)
    requires Inv(b)
    ensures Replay(b, events).Ok? ==> Inv(Replay(b, events).board)
    decreases |events|
  {
    if |events| > 0 {
      assert events[0] in events;
      match events[0]
      case Press(k) =>
        KeyPressedInv(b, k);
        ReplayInv(KeyPressed(b, k), events[1..]);
      case Timer(rx, ry) =>
        ActionPerformedInv(b, rx, ry);
        if ActionPerformed(b, rx, ry).Ok? {
          ReplayInv(ActionPerformed(b, rx, ry).board, events[1..]);
        }
    }
  }

  /* `inGame` never returns to true: a run that ends running started running. */
  lemma {:induction false} ReplayInGameMonotone(b: Board, events: seq<Event>)
    requires forall e :: e in events ==> ValidEvent(e)
    ensures Replay(b, events).board.inGame ==> b.inGame
    decreases |events|
  {
    if |events| > 0 {
      assert events[0] in events;
      match events[0]
      case Press(k) =>
        ReplayInGameMonotone(KeyPressed(b, k), events[1..]);
      case Timer(rx, ry) =>
        if ActionPerformed(b, rx, ry).Ok? {
          ReplayInGameMonotone(ActionPerformed(b, rx, ry).board, events[1..]);
        }
    }
  }

  /**
   After game over nothing but the direction flags changes: any run of ticks
   and key presses keeps the segments, the length and the apple, never throws
   and keeps `inGame` false.
   */
  lemma {:induction false} GameOverIsFinal(b: Board, events: seq<Event>)
    requires forall e :: e in events ==> ValidEvent(e)
    requires !b.inGame
    ensures Replay(b, events).Ok?
    ensures Replay(b, events).board == b.(leftDirection := Replay(b, events).board.leftDirection,
                                          rightDirection := Replay(b, events).board.rightDirection,
                                          upDirection := Replay(b, events).board.upDirection,
                                          downDirection := Replay(b, events).board.downDirection)
    decreases |events|
  {
    if |events| > 0 {
      assert events[0] in events;
      match events[0]
      case Press(k) =>
        GameOverIsFinal(KeyPressed(b, k), events[1..]);
      case Timer(rx, ry) =>
        GameOverIsFinal(b, events[1..]);
    }
  }

  /* After game over, ticks alone leave the whole state unchanged. */
  lemma {:induction false} GameOverTicksIdle(b: Board, events: seq<Event>)
    requires forall e :: e in events ==> ValidEvent(e) && e.Timer?
    requires !b.inGame
    ensures Replay(b, events) == Ok(b)
    decreases |events|
  {
    if |events| > 0 {
      assert events[0] in events;
      GameOverTicksIdle(b, events[1..]);
    }
  }

  /* Every slot past index `dots` still holds Java's default 0. */
  predicate StaleZero(b: Board)
  {
    forall i :: 0 <= b.dots < i < ALL_DOTS ==> b.x[i] == 0 && b.y[i] == 0
  }

  lemma InitGameStaleZero(rx: int, ry: int)
    requires ValidDraw(rx) && ValidDraw(ry)
    ensures StaleZero(InitGame(rx, ry))
  {
  }

  /* Ticks only grow `dots` and never write past it, so the unwritten slots
     stay 0. */
  lemma ActionPerformedStaleZero(b: Board, rx: int, ry: int)
    requires Inv(b) && StaleZero(b) && ValidDraw(rx) && ValidDraw(ry)
    ensures ActionPerformed(b, rx, ry).Ok? ==> StaleZero(ActionPerformed(b, rx, ry).board)
  {
  }

  /* Every run from a state with zero stale slots that does not throw ends
     in one. */
  lemma {:induction false} ReplayStaleZero(b: Board, events: seq<Event>)
    requires forall e :: e in events ==> ValidEvent(e)
    requires Inv(b) && StaleZero(b)
    ensures Replay(b, events).Ok? ==> StaleZero(Replay(b, events).board)
    decreases |events|
  {
    if |events| > 0 {
      assert events[0] in events;
      match events[0]
      case Press(k) =>
        KeyPressedInv(b, k);
        ReplayStaleZero(KeyPressed(b, k), events[1..]);
      case Timer(rx, ry) =>
        ActionPerformedInv(b, rx, ry);
        ActionPerformedStaleZero(b, rx, ry);
        if ActionPerformed(b, rx, ry).Ok? {
          ReplayStaleZero(ActionPerformed(b, rx, ry).board, events[1..]);
        }
    }
  }

  /**
   On the eating tick the collision loop compares the head with index
   `dots + 1`, which `move` has never written and which still holds (0, 0).
   So a running snake that eats an apple lying at (0, 0), with a grown length
   of at least 5, ends the game on that tick.
   */
  lemma EatAtOriginEnds(b: Board, rx: int, ry: int)
    requires ValidDraw(rx) && ValidDraw(ry)
    requires StaleZero(b) && b.inGame
    requires b.x[0] == 0 && b.y[0] == 0 && b.appleX == 0 && b.appleY == 0
    requires 5 <= b.dots + 1 < ALL_DOTS
    ensures ActionPerformed(b, rx, ry).Ok?
    ensures !ActionPerformed(b, rx, ry).board.inGame
  {
  }

  /**
   An eating tick does not move the tail; it only copies the slot past the
   old tail one slot further out. So a (0, 0) past-tail slot stays (0, 0)
   past the new tail.
   */
  lemma EatingKeepsPastTailZero(b: Board, rx: int, ry: int)
    requires ValidDraw(rx) && ValidDraw(ry)
    requires b.inGame && HeadOnApple(b) && 0 <= b.dots && b.dots + 1 < ALL_DOTS
    requires b.x[b.dots] == 0 && b.y[b.dots] == 0
    ensures ActionPerformed(b, rx, ry).Ok?
    ensures var c := ActionPerformed(b, rx, ry).board;
            c.x[c.dots] == 0 && c.y[c.dots] == 0
  {
    Ticks.EatingTickGrows(b, rx, ry);
  }

  /**
   A tick that eats nothing compares the head with the slot past the tail
   too; with both at (0, 0) and a length of at least 5 the game ends.
   */
  lemma QuietTickAtOriginEnds(b: Board, rx: int, ry: int)
    requires ValidDraw(rx) && ValidDraw(ry)
    requires b.inGame && !HeadOnApple(b) && 5 <= b.dots < ALL_DOTS
    requires b.x[0] == 0 && b.y[0] == 0 && b.x[b.dots] == 0 && b.y[b.dots] == 0
    ensures ActionPerformed(b, rx, ry).Ok?
    ensures !ActionPerformed(b, rx, ry).board.inGame
  {
    Ticks.TickEffect(b, rx, ry);
  }

  /**
   From the start position, five ticks with no key pressed and no apple on
   the way leave a running three-segment snake with its head at (100, 50).
   */
  lemma FiveQuietTicks(rx: int, ry: int)
    requires ValidDraw(rx) && ValidDraw(ry)
    requires !(ry * DOT_SIZE == 50 && 50 <= rx * DOT_SIZE <= 90)
    ensures var o := Replay(InitGame(rx, ry), seq(5, i => Timer(rx, ry)));
            && o.Ok?
            && o.board.x[0] == 100 && o.board.y[0] == 50
            && o.board.dots == 3
            && o.board.inGame
  {
    var b0 := InitGame(rx, ry);
    var b1 := QuietTick(b0, rx, ry, 50);
    var b2 := QuietTick(b1, rx, ry, 60);
    var b3 := QuietTick(b2, rx, ry, 70);
    var b4 := QuietTick(b3, rx, ry, 80);
    var b5 := QuietTick(b4, rx, ry, 90);
    var ev := seq(5, i => Timer(rx, ry));
    assert Replay(b4, ev[4..]) == Ok(b5) by { assert ev[4..][1..] == []; }
    assert Replay(b3, ev[3..]) == Ok(b5) by { assert ev[3..][1..] == ev[4..]; }
    assert Replay(b2, ev[2..]) == Ok(b5) by { assert ev[2..][1..] == ev[3..]; }
    assert Replay(b1, ev[1..]) == Ok(b5) by { assert ev[1..][1..] == ev[2..]; }
    assert Replay(b0, ev) == Ok(b5);
  }

  /* One tick of a short snake heading right along row 50, clear of walls
     and of the apple. The draws only matter when an apple is eaten, which
     never happens here, so the start-up draws are passed again. */
  ghost function QuietTick(b: Board, rx: int, ry: int, hx: int): (c: Board)
    requires ValidDraw(rx) && ValidDraw(ry)
    requires b.inGame && b.dots == 3 && OneDirection(b) && Heading(b) == Right
    requires b.x[0] == hx && b.y[0] == 50 && 0 <= hx < 500
    requires b.appleX == rx * DOT_SIZE && b.appleY == ry * DOT_SIZE
    requires !(ry * DOT_SIZE == 50 && rx * DOT_SIZE == hx)
    ensures ActionPerformed(b, rx, ry) == Ok(c)
    ensures c.inGame && c.dots == 3 && OneDirection(c) && Heading(c) == Right
    ensures c.x[0] == hx + DOT_SIZE && c.y[0] == 50
    ensures c.appleX == b.appleX && c.appleY == b.appleY
  {
    Ticks.TickEffect(b, rx, ry);
    ActionPerformed(b, rx, ry).board
  }
}
