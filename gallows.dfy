/** The choice of the gallows picture in `mostrar_estado`
    (ahorcado.py:107-116). Only the number of pictures matters here; the
    pictures themselves are not modelled. */
module Gallows {

  /** `len(HANGMANPICS)`; picture 0 is the complete hangman and picture 6
      the empty gallows. */
  const PictureCount: int := 7

  function Max(a: int, b: int): int {
    if a >= b then a else b
  }

  function Min(a: int, b: int): int {
    if a <= b then a else b
  }

  /** The index of the picture drawn for `attempts` attempts left, as the
      game computes it: always a valid index of the picture list. */
  function PictureIndex(attempts: int): (k: int)
    ensures 0 <= k < PictureCount
    ensures attempts <= 0 ==> k == PictureCount - 1
    ensures attempts >= PictureCount - 1 ==> k == 0
  {
    Max(0, Min(PictureCount - 1, PictureCount - 1 - attempts))
  }

  /** As written, the index runs the wrong way: a fresh round (6 attempts)
      draws the complete hangman, the same picture the game shows once the
      round is lost, and the last attempt (0) draws the empty gallows. */
  lemma PictureIndexInverted(a: int, b: int)
    requires a <= b
    ensures PictureIndex(6) == 0 && PictureIndex(0) == PictureCount - 1
    ensures PictureIndex(b) <= PictureIndex(a)
  {
  }

  /** The index the comments describe: the empty gallows with all 6
      attempts left, the complete hangman at 0, one more part for each
      attempt lost. */
  function IntendedPictureIndex(attempts: int): (k: int)
    ensures 0 <= k < PictureCount
    ensures attempts >= PictureCount - 1 ==> k == PictureCount - 1
    ensures attempts <= 0 ==> k == 0
  {
    Max(0, Min(PictureCount - 1, attempts))
  }

  /** With the intended index, losing attempts never takes a part of the
      hangman away. */
  lemma IntendedPictureIndexMonotone(a: int, b: int)
    requires a <= b
    ensures IntendedPictureIndex(a) <= IntendedPictureIndex(b)
    ensures IntendedPictureIndex(6) == PictureCount - 1 && IntendedPictureIndex(0) == 0
  {
  }
}
