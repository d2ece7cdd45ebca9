/**
 The game simulation of the Snake `Board` panel: the board constants, the
 simulation state, and the steps the timer callback runs on every tick
 (`checkApple`, `checkCollision`, `move`) together with apple placement and
 the initial state.

 The Java class keeps its state in mutable fields and two `int` arrays of
 length `ALL_DOTS`; here a state is an immutable `Board` value and each step
 is a function from one state to the next. The loops of `move` and
 `checkCollision` are written as recursive functions that perform the same
 writes to each array in the same order, and their contracts say what the
 loops achieve.
 */
module Board {

  /* Board geometry: a 600 x 600 panel of 10 x 10 cells. */
  const B_WIDTH: int := 600
  const B_HEIGHT: int := 600
  const DOT_SIZE: int := 10
  /* Capacity of the coordinate arrays: one slot per cell of the board. */
  const ALL_DOTS: int := (B_WIDTH * B_HEIGHT) / (DOT_SIZE * DOT_SIZE)
  /* Number of distinct random cell indices an apple coordinate is drawn from. */
  const RAND_POS: int := B_WIDTH / DOT_SIZE - 1

  /* A coordinate array of the source: always exactly ALL_DOTS entries. */
  type Column = s: seq<int> | |s| == ALL_DOTS witness seq(ALL_DOTS, i => 0)

  /* The four headings the snake can have. */
  datatype Dir = Left | Right | Up | Down

  /* A key event as the key listener sees it: an arrow key or anything else. */
  datatype Key = Arrow(dir: Dir) | OtherKey

  /**
   The panel's simulation state. `x[i], y[i]` is segment `i` (index 0 is the
   head); `dots` is the logical length; the four flags encode the heading.
   */
  datatype Board = Board(
    x: Column,
    y: Column,
    dots: int,
    appleX: int,
    appleY: int,
    leftDirection: bool,
    rightDirection: bool,
    upDirection: bool,
    downDirection: bool,
    inGame: bool)

  /* What a timer tick ends in: a new state, or the state at which an array
     access threw `ArrayIndexOutOfBoundsException`. */
  datatype Outcome = Ok(board: Board) | OutOfBounds(board: Board)

  function Opposite(d: Dir): Dir
  {
    match d
    case Left => Right
    case Right => Left
    case Up => Down
    case Down => Up
  }

  /* Unit step along the x axis for a heading (screen coordinates). */
  function StepX(d: Dir): int
  {
    match d
    case Left => -1
    case Right => 1
    case _ => 0
  }

  /* Unit step along the y axis for a heading (y grows downwards). */
  function StepY(d: Dir): int
  {
    match d
    case Up => -1
    case Down => 1
    case _ => 0
  }

  /* Exactly one of the four direction flags is set. */
  predicate OneDirection(b: Board)
  {
    (if b.leftDirection then 1 else 0) + (if b.rightDirection then 1 else 0)
      + (if b.upDirection then 1 else 0) + (if b.downDirection then 1 else 0) == 1
  }

  /* The heading the single set flag stands for. */
  function Heading(b: Board): (d: Dir)
    requires OneDirection(b)
    ensures d == Left <==> b.leftDirection
    ensures d == Right <==> b.rightDirection
    ensures d == Up <==> b.upDirection
    ensures d == Down <==> b.downDirection
  {
    if b.leftDirection then Left
    else if b.rightDirection then Right
    else if b.upDirection then Up
    else Down
  }

  /* A value `(int) (Math.random() * RAND_POS)` can take. */
  predicate ValidDraw(r: int)
  {
    0 <= r < RAND_POS
  }

  /* A grid-aligned value within [lo, hi]. */
  predicate OnGrid(v: int, lo: int, hi: int)
  {
    v % DOT_SIZE == 0 && lo <= v <= hi
  }

  predicate InBounds(px: int, py: int)
  {
    0 <= px < B_WIDTH && 0 <= py < B_HEIGHT
  }

  predicate HeadOnApple(b: Board)
  {
    b.x[0] == b.appleX && b.y[0] == b.appleY
  }

  /* Some segment at index 5 or beyond, up to and including index `dots`,
     lies on the head's cell. */
  predicate HitsSelf(b: Board)
    requires b.dots < ALL_DOTS
  {
    exists z :: 5 <= z <= b.dots && b.x[z] == b.x[0] && b.y[z] == b.y[0]
  }

  /**
   `locateApple`: each apple coordinate is a random cell index times the cell
   size. The two draws are the parameters `rx` and `ry`.
   */
  function LocateApple(b: Board, rx: int, ry: int): (c: Board)
    requires ValidDraw(rx) && ValidDraw(ry)
    ensures OnGrid(c.appleX, 0, (RAND_POS - 1) * DOT_SIZE)
    ensures OnGrid(c.appleY, 0, (RAND_POS - 1) * DOT_SIZE)
    ensures c.appleX / DOT_SIZE == rx && c.appleY / DOT_SIZE == ry
    ensures c == b.(appleX := c.appleX, appleY := c.appleY)
  {
    b.(appleX := rx * DOT_SIZE, appleY := ry * DOT_SIZE)
  }

  /**
   `initGame` on a freshly constructed panel: all array slots hold Java's
   default 0, three segments are laid out leftwards from (50, 50), the snake
   heads right and the first apple is placed.
   */
  function InitGame(rx: int, ry: int): (b: Board)
    requires ValidDraw(rx) && ValidDraw(ry)
    ensures b.dots == 3
    ensures b.x[0] == 50 && b.x[1] == 40 && b.x[2] == 30
    ensures b.y[0] == 50 && b.y[1] == 50 && b.y[2] == 50
    ensures forall i :: 3 <= i < ALL_DOTS ==> b.x[i] == 0 && b.y[i] == 0
    ensures OneDirection(b) && Heading(b) == Right
    ensures b.inGame
    ensures b.appleX == rx * DOT_SIZE && b.appleY == ry * DOT_SIZE
  {
    var dots := 3;
    var x: Column := seq(ALL_DOTS, z => if z < dots then 50 - z * DOT_SIZE else 0);
    var y: Column := seq(ALL_DOTS, z => if z < dots then 50 else 0);
    var start := Board(x, y, dots, 0, 0, false, true, false, false, true);
    LocateApple(start, rx, ry)
  }

  /**
   `checkApple`: when the head is on the apple the snake grows by one and the
   apple is placed again; otherwise nothing changes.
   */
  function CheckApple(b: Board, rx: int, ry: int): (c: Board)
    requires ValidDraw(rx) && ValidDraw(ry)
    ensures HeadOnApple(b) ==>
              c == b.(dots := b.dots + 1, appleX := rx * DOT_SIZE, appleY := ry * DOT_SIZE)
    ensures !HeadOnApple(b) ==> c == b
  {
    if b.x[0] == b.appleX && b.y[0] == b.appleY then
      LocateApple(b.(dots := b.dots + 1), rx, ry)
    else
      b
  }

  /**
   The loop `for (z = dots; z > 0; z--) s[z] = s[z - 1]` of `move`, one
   iteration per call, from the tail end towards the head.
   */
  function ShiftDown(s: Column, z: int): (r: Column)
    requires z < ALL_DOTS
    ensures forall k :: 1 <= k <= z ==> r[k] == s[k - 1]
    ensures r[0] == s[0]
    ensures forall k :: 0 < k < ALL_DOTS && z < k ==> r[k] == s[k]
    decreases z
  {
    if z <= 0 then s else ShiftDown(s[z := s[z - 1]], z - 1)
  }

  /**
   `move`: every segment from 1 to `dots` takes the place of the one in front
   of it, then the head advances one cell for each set direction flag.
   Index `dots` is written, so `dots` must be a valid index.
   */
  function Move(b: Board): (c: Board)
    requires b.dots < ALL_DOTS
    ensures forall z :: 1 <= z <= b.dots ==> c.x[z] == b.x[z - 1] && c.y[z] == b.y[z - 1]
    ensures forall z :: 0 < z < ALL_DOTS && b.dots < z ==> c.x[z] == b.x[z] && c.y[z] == b.y[z]
    ensures OneDirection(b) ==>
              c.x[0] == b.x[0] + DOT_SIZE * StepX(Heading(b)) &&
              c.y[0] == b.y[0] + DOT_SIZE * StepY(Heading(b))
    ensures c == b.(x := c.x, y := c.y)
  {
    var sx := ShiftDown(b.x, b.dots);
    var sy := ShiftDown(b.y, b.dots);
    var hx := sx[0] - (if b.leftDirection then DOT_SIZE else 0)
                    + (if b.rightDirection then DOT_SIZE else 0);
    var hy := sy[0] - (if b.upDirection then DOT_SIZE else 0)
                    + (if b.downDirection then DOT_SIZE else 0);
    b.(x := sx[0 := hx], y := sy[0 := hy])
  }

  /**
   The loop `for (z = dots; z > 0; z--)` of `checkCollision`: `alive` is
   cleared when a segment beyond index 4 sits on the head's cell.
   */
  function ScanSelf(x: Column, y: Column, z: int, alive: bool): (r: bool)
    requires z < ALL_DOTS
    ensures r <==> alive && !(exists k :: 5 <= k <= z && x[k] == x[0] && y[k] == y[0])
    decreases z
  {
    if z <= 0 then alive
    else ScanSelf(x, y, z - 1, if z > 4 && x[0] == x[z] && y[0] == y[z] then false else alive)
  }

  /**
   `checkCollision`: the game ends when the head shares a cell with a segment
   at index 5..dots or lies off the board. Reading `x[dots]` requires `dots`
   to be a valid index.
   */
  function CheckCollision(b: Board): (c: Board)
    requires b.dots < ALL_DOTS
    ensures c.inGame <==> b.inGame && InBounds(b.x[0], b.y[0]) && !HitsSelf(b)
    ensures c == b.(inGame := c.inGame)
  {
    var alive := ScanSelf(b.x, b.y, b.dots, b.inGame);
    var alive' := if b.y[0] >= B_HEIGHT || b.y[0] < 0 || b.x[0] >= B_WIDTH || b.x[0] < 0
                  then false else alive;
    b.(inGame := alive')
  }

  /* The length `checkApple` leaves before the collision check and the move. */
  function GrownDots(b: Board): int
  {
    if HeadOnApple(b) then b.dots + 1 else b.dots
  }

  /**
   `actionPerformed`: while the game runs, check the apple, then collisions,
   then move. When the grown length is no valid index, the first read of
   `x[dots]` in the collision loop throws and the tick ends there.
   */
  function ActionPerformed(b: Board, rx: int, ry: int): (o: Outcome)
    requires ValidDraw(rx) && ValidDraw(ry)
    ensures !b.inGame ==> o == Ok(b)
    ensures o.board.inGame ==> b.inGame
    ensures o.OutOfBounds? <==> b.inGame && GrownDots(b) >= ALL_DOTS
    ensures o.OutOfBounds? ==> o.board.dots == GrownDots(b) && o.board.x == b.x && o.board.y == b.y
  {
    if !b.inGame then Ok(b)
    else
      var a := CheckApple(b, rx, ry);
      if a.dots >= ALL_DOTS then OutOfBounds(a)
      else Ok(Move(CheckCollision(a)))
  }
}
