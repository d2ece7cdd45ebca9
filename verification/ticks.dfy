/**
 What one timer tick does to the board, derived from the three steps it runs
 in order, and what apple placement can produce.
 */
module Ticks {
  import opened Board

  /**
   A tick of a running game that does not throw: the length first grows when
   the head was on the apple; the collision verdict is taken on the pre-move
   head against segments 5..dots of the grown snake; then every segment up to
   the grown length takes its predecessor's place and the head steps once in
   the heading. The flags are untouched.
   */
  lemma TickEffect(b: Board, rx: int, ry: int)
    requires ValidDraw(rx) && ValidDraw(ry)
    requires b.inGame && GrownDots(b) < ALL_DOTS
    ensures ActionPerformed(b, rx, ry).Ok?
    ensures var c := ActionPerformed(b, rx, ry).board;
            && c.dots == GrownDots(b)
            && (c.inGame <==> InBounds(b.x[0], b.y[0]) && !HitsSelf(b.(dots := c.dots)))
            && (forall z :: 1 <= z <= c.dots ==> c.x[z] == b.x[z - 1] && c.y[z] == b.y[z - 1])
            && (forall z :: 0 < z < ALL_DOTS && c.dots < z ==> c.x[z] == b.x[z] && c.y[z] == b.y[z])
            && (OneDirection(b) ==>
                  c.x[0] == b.x[0] + DOT_SIZE * StepX(Heading(b)) &&
                  c.y[0] == b.y[0] + DOT_SIZE * StepY(Heading(b)))
            && (HeadOnApple(b) ==> c.appleX == rx * DOT_SIZE && c.appleY == ry * DOT_SIZE)
            && (!HeadOnApple(b) ==> c.appleX == b.appleX && c.appleY == b.appleY)
            && c.leftDirection == b.leftDirection && c.rightDirection == b.rightDirection
            && c.upDirection == b.upDirection && c.downDirection == b.downDirection
  {
  }

  /**
   The tick that eats the apple lengthens the snake by exactly one and
   places a new apple. The new last segment, at the old `dots`, holds the
   old tail. The cell held at the old `dots` (one past the old tail) moves
   to the slot just past the new tail.
   */
  lemma EatingTickGrows(b: Board, rx: int, ry: int)
    requires ValidDraw(rx) && ValidDraw(ry)
    requires b.inGame && HeadOnApple(b) && 0 <= b.dots && b.dots + 1 < ALL_DOTS
    ensures var o := ActionPerformed(b, rx, ry);
            && o.Ok?
            && o.board.dots == b.dots + 1
            && (1 <= b.dots ==> o.board.x[b.dots] == b.x[b.dots - 1] && o.board.y[b.dots] == b.y[b.dots - 1])
            && o.board.x[b.dots + 1] == b.x[b.dots] && o.board.y[b.dots + 1] == b.y[b.dots]
            && o.board.appleX == rx * DOT_SIZE && o.board.appleY == ry * DOT_SIZE
  {
  }

  /**
   The tick on which the game ends still moves the snake: with the head off
   the board, the tick clears `inGame` and advances the head one cell.
   */
  lemma FatalTickStillMoves(b: Board, rx: int, ry: int)
    requires ValidDraw(rx) && ValidDraw(ry)
    requires b.inGame && OneDirection(b) && GrownDots(b) < ALL_DOTS
    requires !InBounds(b.x[0], b.y[0])
    ensures var o := ActionPerformed(b, rx, ry);
            && o.Ok?
            && !o.board.inGame
            && o.board.x[0] == b.x[0] + DOT_SIZE * StepX(Heading(b))
            && o.board.y[0] == b.y[0] + DOT_SIZE * StepY(Heading(b))
  {
  }

  /* A head one cell past the right or left edge is a wall collision. */
  lemma OneCellOutsideIsWall(b: Board)
    requires b.dots < ALL_DOTS
    requires b.x[0] == B_WIDTH || b.x[0] == -DOT_SIZE
    ensures !CheckCollision(b).inGame
  {
  }

  /**
   Segments 1 to 4 never end the game: two boards that differ only in those
   segments get the same verdict from the collision check.
   */
  lemma NeckIsExempt(b: Board, b': Board)
    requires b.dots < ALL_DOTS
    requires b' == b.(x := b'.x, y := b'.y)
    requires b'.x[0] == b.x[0] && b'.y[0] == b.y[0]
    requires forall z :: 5 <= z < ALL_DOTS ==> b'.x[z] == b.x[z] && b'.y[z] == b.y[z]
    ensures CheckCollision(b').inGame == CheckCollision(b).inGame
  {
  }

  /**
   The apple cells `locateApple` can produce are exactly the grid-aligned
   cells with both coordinates in [0, (RAND_POS - 1) * DOT_SIZE].
   */
  lemma AppleCells(b: Board, ax: int, ay: int)
    ensures (exists rx, ry :: ValidDraw(rx) && ValidDraw(ry) &&
               LocateApple(b, rx, ry).appleX == ax && LocateApple(b, rx, ry).appleY == ay)
            <==> OnGrid(ax, 0, (RAND_POS - 1) * DOT_SIZE) && OnGrid(ay, 0, (RAND_POS - 1) * DOT_SIZE)
  {
    if OnGrid(ax, 0, (RAND_POS - 1) * DOT_SIZE) && OnGrid(ay, 0, (RAND_POS - 1) * DOT_SIZE) {
      var rx, ry := ax / DOT_SIZE, ay / DOT_SIZE;
      assert ValidDraw(rx) && ValidDraw(ry);
      assert LocateApple(b, rx, ry).appleX == ax && LocateApple(b, rx, ry).appleY == ay;
    }
  }

  /* In particular the apple never appears in the last column or the last
     row of the board. */
  lemma AppleNeverInLastLine(b: Board, rx: int, ry: int)
    requires ValidDraw(rx) && ValidDraw(ry)
    ensures LocateApple(b, rx, ry).appleX != B_WIDTH - DOT_SIZE
    ensures LocateApple(b, rx, ry).appleY != B_HEIGHT - DOT_SIZE
  {
  }
}
