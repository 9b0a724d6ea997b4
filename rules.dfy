/** The rules of one round of hangman (ahorcado.py, `jugar_una_partida`),
    stated on values: a snapshot of the round, the classification of one line
    of input, the snapshot after it, and the round played over a sequence of
    lines. The class `Game.Round` is proved to follow these rules. */
module Rules {
  import opened CharData
  import opened Folding

  /** What the mask shows for a letter not yet found. */
  const Placeholder: char := '_'

  /** The attempts a round starts with. */
  const Budget: int := 6

  /** The words a round can be played with (`PALABRAS`). */
  const Lexicon: seq<string> := [
    "programaci\U{F3}n", "python", "desarrollo", "computadora", "variable",
    "universidad", "ahorcado", "tecnolog\U{ED}a", "algoritmo", "internet",
    "ecuador", "servidor", "cliente", "archivo", "funci\U{F3}n", "memoria",
    "depuraci\U{F3}n", "microservicio", "contenedor", "docker"
  ]

  /** What the round holds besides its secret word: the mask on show
      (`palabra_mostrada`), the folded letters tried (`usadas`) and the
      attempts left (`intentos`). */
  datatype Snapshot = Snapshot(shown: string, used: set<char>, attempts: int)

  /** Where a round stands before it reads its next line. */
  datatype Phase = Playing | Won | Lost

  /** What one pass of the game loop does with a line of input. */
  datatype Move =
    | Over                 // the round has ended; the line is not read
    | Blank                // nothing but whitespace
    | NotALetter           // a single character whose key is not a letter
    | Repeated(letter: char)
    | Hit(letter: char)    // a new letter found in the word
    | Miss(letter: char)   // a new letter not in the word
    | WordRight            // the whole word, guessed
    | WordWrong            // a guess of two or more characters that is not the word
  {
    /** The moves that leave the round as it was. */
    predicate Rejected() {
      Over? || Blank? || NotALetter? || Repeated?
    }

    /** The moves that cost an attempt. */
    predicate Costly() {
      Miss? || WordWrong?
    }
  }

  /** The mask a round starts with: letters hidden, everything else shown. */
  function InitialMask(word: string): (mask: string)
    ensures |mask| == |word|
    ensures forall i :: 0 <= i < |word| ==> mask[i] == Placeholder || mask[i] == word[i]
    ensures forall i :: 0 <= i < |word| && word[i] != Placeholder ==>
              (mask[i] == Placeholder <==> IsAlpha(word[i]))
  {
    seq(|word|, i requires 0 <= i < |word| => if IsAlpha(word[i]) then Placeholder else word[i])
  }

  /** The snapshot a round starts from. */
  function Start(word: string): Snapshot {
    Snapshot(InitialMask(word), {}, Budget)
  }

  /** The character `c` of the word is found by the folded `letter`: its
      key is that letter (`CharKeyIsKey` shows `CharKey(c)` is the key of
      `c`). */
  predicate Matches(c: char, letter: char) {
    CharKey(c) == [letter]
  }

  /** Some letter of `used` finds the character `c`. */
  predicate Revealed(c: char, used: set<char>) {
    |CharKey(c)| == 1 && CharKey(c)[0] in used
  }

  /** Some position of `word` is found by `letter`. */
  predicate Occurs(word: string, letter: char) {
    exists i :: 0 <= i < |word| && Matches(word[i], letter)
  }

  /** The mask that shows exactly the letters found by `used`. */
  ghost function MaskFor(word: string, used: set<char>): string {
    seq(|word|, i requires 0 <= i < |word| =>
      if IsAlpha(word[i]) && !Revealed(word[i], used) then Placeholder else word[i])
  }

  /** `shown` with every position found by `letter` set to the word's
      own character. */
  function Reveal(word: string, shown: string, letter: char): string {
    seq(|shown|, i requires 0 <= i < |shown| =>
      if i < |word| && Matches(word[i], letter) then word[i] else shown[i])
  }

  /** The loop guard and the check that opens each pass of the loop. */
  function PhaseOf(word: string, r: Snapshot): Phase {
    if r.attempts < 0 then Lost
    else if Normalize(r.shown) == Normalize(word) then Won
    else Playing
  }

  /** What the pass of the loop that reads `line` does with it. A line that
      strips to one character whose key is empty is rejected as not a
      letter; the game itself fails there (see `LetterAsWritten` and
      `EmptyKeyRejected`). */
  function Judge(word: string, r: Snapshot, line: string): Move {
    if PhaseOf(word, r) != Playing then Over
    else
      var guess := Strip(line);
      if guess == [] then Blank
      else if |guess| > 1 then
        if Normalize(guess) == Normalize(word) then WordRight else WordWrong
      else
        var key := Normalize(guess);
        if key == [] || !IsAlpha(key[0]) then NotALetter
        else if key[0] in r.used then Repeated(key[0])
        else if Occurs(word, key[0]) then Hit(key[0])
        else Miss(key[0])
  }

  /** The letter the game takes from a guess of one character
      (ahorcado.py:157), as written: the first character of its key, which
      exists only when the key is not empty. The letter is a plain
      character that folds to itself. */
  function LetterAsWritten(guess: string): (letter: char)
    requires |guess| == 1 && Normalize(guess) != []
    ensures IsPlain(letter) && Normalize([letter]) == [letter]
  {
    NormalizeIsPlain(guess);
    var letter := Normalize(guess)[0];
    PlainIsFixed([letter]);
    letter
  }

  /** A lone combining acute accent is a guess of one character that the
      game's strip keeps and whose key is empty: it breaks the precondition
      of `LetterAsWritten`, where the game indexes an empty string. */
  lemma LoneMarkBreaksLetterAsWritten(line: string)
    requires line == "\U{0301}"
    ensures Strip(line) == line && |Strip(line)| == 1
    ensures Normalize(Strip(line)) == []
  {
    assert line == [line[0]] && IsCombining(line[0]);
    KeyOfSimpleChar(line[0]);
  }

  /** The corrected rule: in a round in play, a line that strips to one
      character whose key is empty is rejected as not a letter, like any
      other non-letter, and leaves the round as it was. */
  lemma EmptyKeyRejected(word: string, r: Snapshot, line: string)
    requires PhaseOf(word, r) == Playing
    requires |Strip(line)| == 1 && Normalize(Strip(line)) == []
    ensures Judge(word, r, line) == NotALetter && Next(word, r, line) == r
  {
  }

  /** Every combining mark on its own is such a line: the strip keeps it
      and its key is empty. */
  lemma LoneMarkEmptyKey(m: char)
    requires IsCombining(m)
    ensures Strip([m]) == [m] && Normalize([m]) == []
  {
    KeyOfSimpleChar(m);
  }

  /** In a round in play, every lone combining mark is rejected as not a
      letter and changes nothing. */
  lemma LoneMarkRejected(word: string, r: Snapshot, m: char)
    requires PhaseOf(word, r) == Playing && IsCombining(m)
    ensures Judge(word, r, [m]) == NotALetter && Next(word, r, [m]) == r
  {
    LoneMarkEmptyKey(m);
    EmptyKeyRejected(word, r, [m]);
  }

  /** The snapshot after the pass of the loop that reads `line`. */
  function Next(word: string, r: Snapshot, line: string): Snapshot {
    match Judge(word, r, line)
    case Hit(l) => Snapshot(Reveal(word, r.shown, l), r.used + {l}, r.attempts)
    case Miss(l) => Snapshot(r.shown, r.used + {l}, r.attempts - 1)
    case WordRight => r.(shown := word)
    case WordWrong => r.(attempts := r.attempts - 1)
    case _ => r
  }

  /** The round played from `r` over `lines`, up to its end. */
  function Run(word: string, r: Snapshot, lines: seq<string>): Snapshot
    decreases |lines|
  {
    if lines == [] || PhaseOf(word, r) != Playing then r
    else Run(word, Next(word, r, lines[0]), lines[1..])
  }

  /** How many of the lines that `Run` reads cost an attempt. */
  function Misses(word: string, r: Snapshot, lines: seq<string>): nat
    decreases |lines|
  {
    if lines == [] || PhaseOf(word, r) != Playing then 0
    else (if Judge(word, r, lines[0]).Costly() then 1 else 0)
         + Misses(word, Next(word, r, lines[0]), lines[1..])
  }

  /** The invariant of a round: the mask is as long as the word and shows
      exactly the letters found so far (or the whole word, after it was
      guessed), the letters tried are letters, and the attempts lie between
      -1 and the budget. */
  ghost predicate Reachable(word: string, r: Snapshot) {
    && |r.shown| == |word|
    && -1 <= r.attempts <= Budget
    && (forall l :: l in r.used ==> IsAlpha(l))
    && (r.shown == MaskFor(word, r.used) || r.shown == word)
  }

  // ---------------------------------------------------------------------
  // The start of a round

  /** A round starts in its invariant. */
  lemma StartReachable(word: string)
    ensures Reachable(word, Start(word))
  {
    assert InitialMask(word) == MaskFor(word, {});
  }

  /** A word with a letter and without the placeholder is not won before
      the first guess. */
  lemma StartPlaying(word: string, i: int)
    requires 0 <= i < |word| && IsAlpha(word[i]) && Placeholder !in word
    ensures PhaseOf(word, Start(word)) == Playing
  {
    var mask := InitialMask(word);
    assert mask[i] == Placeholder;
    PlaceholderSurvives(mask);
    PlaceholderSurvives(word);
  }

  /** Every word of the lexicon is a non-empty word of letters only. */
  lemma LexiconWords(word: string)
    requires word in Lexicon
    ensures |word| > 0 && Placeholder !in word
    ensures forall i :: 0 <= i < |word| ==> IsAlpha(word[i])
  {
    assert forall c :: c in word ==> IsAlpha(c);
  }

  /** A round with a word of the lexicon starts with every position hidden
      and is in play. */
  lemma LexiconStart(word: string)
    requires word in Lexicon
    ensures forall i :: 0 <= i < |word| ==> Start(word).shown[i] == Placeholder
    ensures PhaseOf(word, Start(word)) == Playing
  {
    LexiconWords(word);
    StartPlaying(word, 0);
  }

  // ---------------------------------------------------------------------
  // One pass of the loop

  /** Finding a letter turns the mask for `used` into the mask for
      `used + {l}`. */
  lemma RevealMask(word: string, used: set<char>, l: char)
    ensures Reveal(word, MaskFor(word, used), l) == MaskFor(word, used + {l})
  {
  }

  /** Only a rejected line leaves the snapshot as it was. */
  lemma UnchangedIffRejected(word: string, r: Snapshot, line: string)
    requires Reachable(word, r)
    ensures Next(word, r, line) == r <==> Judge(word, r, line).Rejected()
  {
    var m := Judge(word, r, line);
    if m.WordRight? {
      assert PhaseOf(word, r) == Playing;
      assert r.shown != word;
    }
  }

  /** A letter guess: the letter is a new folded letter taken from a line
      of one character; it is added to the letters tried; the positions it
      finds, and only those, now show the word's own character; it costs an
      attempt exactly when it finds nothing. */
  lemma LetterGuess(word: string, r: Snapshot, line: string)
    requires Judge(word, r, line).Hit? || Judge(word, r, line).Miss?
    ensures var l := Judge(word, r, line).letter;
            var r' := Next(word, r, line);
            && |Strip(line)| == 1 && l == Normalize(Strip(line))[0] && IsAlpha(l)
            && l !in r.used && r'.used == r.used + {l}
            && |r'.shown| == |r.shown|
            && (forall i :: 0 <= i < |r.shown| ==>
                  r'.shown[i] == if i < |word| && Matches(word[i], l) then word[i] else r.shown[i])
            && (Judge(word, r, line).Hit? <==> Occurs(word, l))
            && r'.attempts == if Occurs(word, l) then r.attempts else r.attempts - 1
  {
    var l := Judge(word, r, line).letter;
    if Judge(word, r, line).Miss? {
      assert forall i :: 0 <= i < |word| ==> !Matches(word[i], l);
    }
  }

  /** A guess of two or more characters: when its key is the word's key,
      the whole word is shown and the round is won whatever letters were
      tried; otherwise only the attempts go down, by one. */
  lemma WordGuess(word: string, r: Snapshot, line: string)
    requires PhaseOf(word, r) == Playing && |Strip(line)| > 1
    ensures var r' := Next(word, r, line);
            if Normalize(Strip(line)) == Normalize(word) then
              && Judge(word, r, line) == WordRight
              && r' == Snapshot(word, r.used, r.attempts)
              && PhaseOf(word, r') == Won
            else
              && Judge(word, r, line) == WordWrong
              && r' == Snapshot(r.shown, r.used, r.attempts - 1)
  {
  }

  /** The attempts never go up, and go down by one exactly on a costly move. */
  lemma AttemptsStep(word: string, r: Snapshot, line: string)
    ensures Next(word, r, line).attempts
            == r.attempts - if Judge(word, r, line).Costly() then 1 else 0
    ensures Next(word, r, line).attempts <= r.attempts
  {
  }

  /** Every pass of the loop keeps the invariant. */
  lemma NextReachable(word: string, r: Snapshot, line: string)
    requires Reachable(word, r)
    ensures Reachable(word, Next(word, r, line))
  {
    match Judge(word, r, line)
    case Hit(l) =>
      assert r.shown != word;
      RevealMask(word, r.used, l);
    case Miss(l) =>
      assert r.shown != word;
      MissKeepsMask(word, r.used, l);
    case _ =>
  }

  /** A letter the word lacks reveals nothing: adding it to the letters
      tried leaves the mask as it was. */
  lemma MissKeepsMask(word: string, used: set<char>, l: char)
    requires !Occurs(word, l)
    ensures MaskFor(word, used + {l}) == MaskFor(word, used)
  {
    assert forall i :: 0 <= i < |word| ==> !Matches(word[i], l);
  }

  /** A pass never hides a position again and never forgets a letter. */
  lemma NextMonotone(word: string, r: Snapshot, line: string)
    requires |r.shown| == |word|
    ensures var r' := Next(word, r, line);
            && r.used <= r'.used && r'.attempts <= r.attempts
            && |r'.shown| == |word|
            && forall i :: 0 <= i < |word| && r.shown[i] == word[i] ==> r'.shown[i] == word[i]
  {
  }

  /** A costly move made with no attempt left loses the round; made with
      attempts left, it keeps the round in play. */
  lemma LossBoundary(word: string, r: Snapshot, line: string)
    requires PhaseOf(word, r) == Playing && Judge(word, r, line).Costly()
    ensures var r' := Next(word, r, line);
            && r'.attempts == r.attempts - 1
            && (PhaseOf(word, r') == Lost <==> r.attempts == 0)
            && (PhaseOf(word, r') == Playing <==> r.attempts > 0)
  {
  }

  /** Once the round is over, no line changes it. */
  lemma OverIsFinal(word: string, r: Snapshot, lines: seq<string>, line: string)
    requires PhaseOf(word, r) != Playing
    ensures Judge(word, r, line) == Over && Next(word, r, line) == r
    ensures Run(word, r, lines) == r && Misses(word, r, lines) == 0
  {
  }

  // ---------------------------------------------------------------------
  // Winning

  /** When every letter of the word has been found, the mask is the word
      and the round is won. */
  lemma WinByLetters(word: string, r: Snapshot)
    requires Reachable(word, r) && r.attempts >= 0
    requires forall i :: 0 <= i < |word| && IsAlpha(word[i]) ==> Revealed(word[i], r.used)
    ensures r.shown == word && PhaseOf(word, r) == Won
  {
    assert MaskFor(word, r.used) == word;
  }

  /** For a word without the placeholder, the round is won exactly when the
      whole word is on show and the attempts have not run out. */
  lemma WonIffFullyShown(word: string, r: Snapshot)
    requires Reachable(word, r) && Placeholder !in word
    ensures PhaseOf(word, r) == Won <==> r.attempts >= 0 && r.shown == word
  {
    PlaceholderSurvives(r.shown);
    PlaceholderSurvives(word);
    if Normalize(r.shown) == Normalize(word) {
      assert Placeholder !in r.shown;
      assert forall i :: 0 <= i < |word| ==> r.shown[i] == word[i];
    }
  }

  // ---------------------------------------------------------------------
  // A whole round

  /** The invariant holds to the end of the round. */
  lemma {:induction false} RunReachable(word: string, r: Snapshot, lines: seq<string>)
    requires Reachable(word, r)
    ensures Reachable(word, Run(word, r, lines))
    decreases |lines|
  {
    if lines != [] && PhaseOf(word, r) == Playing {
      NextReachable(word, r, lines[0]);
      RunReachable(word, Next(word, r, lines[0]), lines[1..]);
    }
  }

  /** The attempts left at the end are those at the start less the costly
      moves. */
  lemma {:induction false} RunAttempts(word: string, r: Snapshot, lines: seq<string>)
    ensures Run(word, r, lines).attempts == r.attempts - Misses(word, r, lines)
    decreases |lines|
  {
    if lines != [] && PhaseOf(word, r) == Playing {
      AttemptsStep(word, r, lines[0]);
      RunAttempts(word, Next(word, r, lines[0]), lines[1..]);
    }
  }

  /** Letters tried stay tried, found positions stay found, and the
      attempts only go down. */
  lemma {:induction false} RunMonotone(word: string, r: Snapshot, lines: seq<string>)
    requires |r.shown| == |word|
    ensures var f := Run(word, r, lines);
            && r.used <= f.used && f.attempts <= r.attempts
            && |f.shown| == |word|
            && forall i :: 0 <= i < |word| && r.shown[i] == word[i] ==> f.shown[i] == word[i]
    decreases |lines|
  {
    if lines != [] && PhaseOf(word, r) == Playing {
      NextMonotone(word, r, lines[0]);
      RunMonotone(word, Next(word, r, lines[0]), lines[1..]);
    }
  }

  /** From the start of a round, the attempts never go below -1, and the
      round is lost exactly on the seventh costly move. */
  lemma LostOnSeventhMiss(word: string, lines: seq<string>)
    ensures var f := Run(word, Start(word), lines);
            && f.attempts == Budget - Misses(word, Start(word), lines)
            && f.attempts >= -1
            && Misses(word, Start(word), lines) <= Budget + 1
            && (PhaseOf(word, f) == Lost <==> Misses(word, Start(word), lines) == Budget + 1)
  {
    StartReachable(word);
    RunReachable(word, Start(word), lines);
    RunAttempts(word, Start(word), lines);
  }
}
