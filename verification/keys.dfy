/**
 The key listener of the panel (`TAdapter.keyPressed`): four independent `if`
 statements, each guarded by the key and by the live flag of the opposite
 heading, that set one direction flag and clear the two perpendicular ones.
 */
module KeyInput {
  import opened Board

  /* The flags of a board, as one tuple. */
  function Flags(b: Board): (bool, bool, bool, bool)
  {
    (b.leftDirection, b.rightDirection, b.upDirection, b.downDirection)
  }

  /**
   `keyPressed`: an arrow key takes effect unless the flag of the opposite
   heading is set at that moment. Only the direction flags can change.
   */
  function KeyPressed(b: Board, k: Key): (c: Board)
    ensures c == b.(leftDirection := c.leftDirection, rightDirection := c.rightDirection,
                    upDirection := c.upDirection, downDirection := c.downDirection)
    ensures OneDirection(b) ==> OneDirection(c)
    ensures k == OtherKey ==> c == b
    ensures OneDirection(b) && k == Arrow(Opposite(Heading(b))) ==> c == b
    ensures OneDirection(b) && k == Arrow(Heading(b)) ==> c == b
    ensures OneDirection(b) && k.Arrow? && k.dir != Opposite(Heading(b)) ==> Heading(c) == k.dir
  {
    match k
    case OtherKey => b
    case Arrow(Left) =>
      if !b.rightDirection then b.(leftDirection := true, upDirection := false, downDirection := false) else b
    case Arrow(Right) =>
      if !b.leftDirection then b.(rightDirection := true, upDirection := false, downDirection := false) else b
    case Arrow(Up) =>
      if !b.downDirection then b.(upDirection := true, rightDirection := false, leftDirection := false) else b
    case Arrow(Down) =>
      if !b.upDirection then b.(downDirection := true, rightDirection := false, leftDirection := false) else b
  }

  /* With one flag set, an arrow key turns the snake to its heading exactly
     when that heading is not the reverse of the current one; a key that does
     not turn the snake leaves every flag as it was. */
  lemma ArrowTurnsUnlessReverse(b: Board, d: Dir)
    requires OneDirection(b)
    ensures Heading(KeyPressed(b, Arrow(d))) == d <==> d != Opposite(Heading(b))
    ensures Heading(KeyPressed(b, Arrow(d))) != d ==> Flags(KeyPressed(b, Arrow(d))) == Flags(b)
  {
  }

  /* The reversal guard reads the live flags, so two keys pressed between two
     ticks can reverse the snake: Up then Left while heading right. */
  lemma TwoKeysReverse(b: Board)
    requires OneDirection(b) && Heading(b) == Right
    ensures var c := KeyPressed(KeyPressed(b, Arrow(Up)), Arrow(Left));
            OneDirection(c) && Heading(c) == Opposite(Heading(b))
  {
  }
}
