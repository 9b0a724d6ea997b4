/** One round of hangman as the game runs it (ahorcado.py,
    `jugar_una_partida`): the round's variables become the fields of a
    `Round`, one pass of the `while intentos >= 0` loop becomes `Step`, and
    the loop itself becomes `PlayRound`, which reads the lines it is given
    in place of the console. */
module Game {
  import opened CharData
  import opened Folding
  import opened Rules

  class Round {
    /** The secret word, accents included (`palabra_real`). */
    const word: string
    /** Its key (`palabra_norm`). */
    const folded: string
    /** The mask on show (`palabra_mostrada`). */
    var shown: string
    /** The folded letters tried so far (`usadas`). */
    var used: set<char>
    /** The attempts left (`intentos`). */
    var attempts: int

    /** The round's variables as a value. */
    function State(): Snapshot
      reads this
    {
      Snapshot(shown, used, attempts)
    }

    ghost predicate Valid()
      reads this
    {
      folded == Normalize(word) && Reachable(word, State())
    }

    /** A new round with a word of the lexicon: every letter hidden, no
        letter tried, the whole budget of attempts. */
    constructor (secret: string)
      requires secret in Lexicon
      ensures Valid() && word == secret
      ensures State() == Start(secret)
    {
      word := secret;
      folded := Normalize(secret);
      shown := InitialMask(secret);
      used := {};
      attempts := Budget;
      new;
      StartReachable(secret);
    }

    /** The loop guard and the check that opens each pass, computed from
        the stored key. */
    function Phase(): (p: Phase)
      reads this
      requires Valid()
      ensures p == PhaseOf(word, State())
    {
      if attempts < 0 then Lost
      else if Normalize(shown) == folded then Won
      else Playing
    }

    /** One pass of the game loop, reading `line` if the round is still in
        play: what it does with the line is `Judge`, the state it leaves is
        `Next`. */
    method Step(line: string) returns (move: Move)
      requires Valid()
      modifies this
      ensures Valid()
      ensures move == Judge(word, old(State()), line)
      ensures State() == Next(word, old(State()), line)
    {
      ghost var before := State();
      NextReachable(word, before, line);
      if attempts < 0 || Normalize(shown) == folded {
        return Over;
      }
      var guess := Strip(line);
      if guess == [] {
        return Blank;
      }
      if |guess| > 1 {
        if Normalize(guess) == folded {
          shown := word;
          return WordRight;
        }
        attempts := attempts - 1;
        return WordWrong;
      }
      var key := Normalize(guess);
      if key == [] {
        // the game indexes the empty key here and fails; see LetterAsWritten
        return NotALetter;
      }
      var letter := key[0];
      if !IsAlpha(letter) {
        return NotALetter;
      }
      if letter in used {
        return Repeated(letter);
      }
      used := used + {letter};
      var hit := RevealLetter(letter);
      if hit {
        move := Hit(letter);
      } else {
        attempts := attempts - 1;
        move := Miss(letter);
      }
    }

    /** The scan of the word for `letter`: every position whose key is the
        letter shows the word's own character; `hit` tells whether there
        was one. */
    method RevealLetter(letter: char) returns (hit: bool)
      requires |shown| == |word|
      modifies this`shown
      ensures shown == Reveal(word, old(shown), letter)
      ensures hit == Occurs(word, letter)
      ensures !hit ==> shown == old(shown)
    {
      ghost var before := shown;
      hit := false;
      for i := 0 to |word|
        invariant |shown| == |word|
        invariant forall k :: 0 <= k < |word| ==>
                    shown[k] == if k < i && Matches(word[k], letter) then word[k] else before[k]
        invariant hit <==> exists k :: 0 <= k < i && Matches(word[k], letter)
      {
        CharKeyIsKey(word[i]);
        if Normalize([word[i]]) == [letter] {
          shown := shown[i := word[i]];
          hit := true;
        }
      }
      assert shown == Reveal(word, before, letter);
    }
  }

  /** The game loop over the lines `lines`: it stops when the round is won
      or lost, or when the lines run out (the game would wait for more). The
      round ends where `Run` says. */
  method PlayRound(secret: string, lines: seq<string>) returns (phase: Phase, last: Snapshot)
    requires secret in Lexicon
    ensures last == Run(secret, Start(secret), lines)
    ensures phase == PhaseOf(secret, last)
    ensures last.attempts >= -1
    ensures phase == Lost <==> Misses(secret, Start(secret), lines) == Budget + 1
    ensures phase == Won <==> last.attempts >= 0 && last.shown == secret
  {
    var round := new Round(secret);
    var k := 0;
    while k < |lines| && round.Phase() == Playing
      invariant round.Valid() && round.word == secret
      invariant 0 <= k <= |lines|
      invariant Run(secret, Start(secret), lines) == Run(secret, round.State(), lines[k..])
    {
      assert lines[k..][0] == lines[k] && lines[k..][1..] == lines[k + 1..];
      var _ := round.Step(lines[k]);
      k := k + 1;
    }
    last := round.State();
    phase := round.Phase();
    LostOnSeventhMiss(secret, lines);
    LexiconWords(secret);
    WonIffFullyShown(secret, last);
  }
}
