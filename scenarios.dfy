/** Concrete rounds worked out on the model: a hit and a repeated hit, a
    miss and a repeated miss, an accented letter revealed by its bare form,
    and whole-word guesses. */
module Scenarios {
  import opened CharData
  import opened Folding
  import opened Rules

  /** A round whose mask still shows the placeholder, for a word without
      it and with attempts left, is in play. */
  lemma HiddenMeansPlaying(word: string, r: Snapshot)
    requires r.attempts >= 0 && Placeholder in r.shown && Placeholder !in word
    ensures PhaseOf(word, r) == Playing
  {
    PlaceholderSurvives(r.shown);
    PlaceholderSurvives(word);
  }

  /** A line that is one ASCII letter: it strips to itself and its key is
      its capital. */
  lemma AsciiLetterLine(line: string)
    requires |line| == 1 && ('a' <= line[0] <= 'z' || 'A' <= line[0] <= 'Z')
    ensures Strip(line) == line && Normalize(line) == [UpperChar(line[0])]
    ensures IsAlpha(UpperChar(line[0]))
  {
    assert line == [line[0]];
    KeyOfAsciiChar(line[0]);
  }

  /** How a round in play judges a line whose key is the single letter
      `l`. */
  lemma LetterLine(word: string, r: Snapshot, line: string, l: char)
    requires PhaseOf(word, r) == Playing
    requires Strip(line) == line && |line| == 1 && Normalize(line) == [l] && IsAlpha(l)
    ensures Judge(word, r, line) ==
              if l in r.used then Repeated(l) else if Occurs(word, l) then Hit(l) else Miss(l)
  {
    assert Normalize(line)[0] == l;
  }

  /** The snapshot after a hit: the letter is revealed and added to the
      letters tried. */
  lemma HitNext(word: string, r: Snapshot, line: string, l: char)
    requires Judge(word, r, line) == Hit(l)
    ensures Next(word, r, line) == Snapshot(Reveal(word, r.shown, l), r.used + {l}, r.attempts)
  {
  }

  /** A letter found at exactly one position reveals that position and
      no other. */
  lemma RevealSingle(word: string, shown: string, l: char, k: int)
    requires |shown| == |word| && 0 <= k < |word|
    requires forall i :: 0 <= i < |word| ==> (Matches(word[i], l) <==> i == k)
    ensures Reveal(word, shown, l) == shown[k := word[k]]
  {
  }

  /** A letter found at exactly two positions reveals those two and no
      other. */
  lemma RevealPair(word: string, shown: string, l: char, j: int, k: int)
    requires |shown| == |word| && 0 <= j < |word| && 0 <= k < |word|
    requires forall i :: 0 <= i < |word| ==> (Matches(word[i], l) <==> i == j || i == k)
    ensures Reveal(word, shown, l) == shown[j := word[j]][k := word[k]]
  {
  }

  /** Secret "CIENCIA": every position starts hidden. */
  lemma CienciaStart(word: string)
    requires word == "CIENCIA"
    ensures Start(word).shown == "_______"
  {
  }

  /** Secret "CIENCIA": the letter 'C' finds exactly the positions that
      hold it. */
  lemma CienciaLetters(word: string)
    requires word == "CIENCIA"
    ensures forall i :: 0 <= i < |word| ==> (Matches(word[i], 'C') <==> i == 0 || i == 4)
  {
    forall i | 0 <= i < |word| ensures Matches(word[i], 'C') <==> i == 0 || i == 4 {
      KeyOfAsciiChar(word[i]);
    }
  }

  /** Secret "CIENCIA": guessing "C" finds positions 0 and 4 and costs
      nothing. */
  lemma CienciaFirstGuess(word: string, line: string)
    requires word == "CIENCIA" && line == "C"
    ensures Judge(word, Start(word), line) == Hit('C')
    ensures Next(word, Start(word), line) == Snapshot("C___C__", {'C'}, Budget)
  {
    StartPlaying(word, 0);
    CienciaStart(word);
    CienciaLetters(word);
    AsciiLetterLine(line);
    assert Matches(word[0], 'C');
    LetterLine(word, Start(word), line, 'C');
    RevealPair(word, Start(word).shown, 'C', 0, 4);
    HitNext(word, Start(word), line, 'C');
  }

  /** Secret "CIENCIA" after "C": the lower-case "c" folds to the letter
      already tried, so it is rejected and changes nothing. */
  lemma CienciaRepeatedGuess(word: string, r: Snapshot, line: string)
    requires word == "CIENCIA" && r == Snapshot("C___C__", {'C'}, Budget) && line == "c"
    ensures Judge(word, r, line) == Repeated('C')
    ensures Next(word, r, line) == r
  {
    assert r.shown[1] == Placeholder && Placeholder !in word;
    HiddenMeansPlaying(word, r);
    AsciiLetterLine(line);
    LetterLine(word, r, line, 'C');
  }

  /** A round in play given a line whose key is a new letter that the
      word lacks: a miss, which reveals nothing and spends an attempt. */
  lemma MissLine(word: string, r: Snapshot, line: string, l: char)
    requires PhaseOf(word, r) == Playing
    requires Strip(line) == line && |line| == 1 && Normalize(line) == [l] && IsAlpha(l)
    requires l !in r.used && !Occurs(word, l)
    ensures Judge(word, r, line) == Miss(l)
    ensures Next(word, r, line) == Snapshot(r.shown, r.used + {l}, r.attempts - 1)
  {
    LetterLine(word, r, line, l);
  }

  /** Secret "CIENCIA": the letter 'Z' finds no position. */
  lemma CienciaLacksZ(word: string)
    requires word == "CIENCIA"
    ensures !Occurs(word, 'Z')
  {
    forall i | 0 <= i < |word| ensures !Matches(word[i], 'Z') {
      KeyOfAsciiChar(word[i]);
    }
  }

  /** Secret "CIENCIA": guessing "z" misses, reveals nothing and costs one
      attempt. */
  lemma CienciaMissedGuess(word: string, line: string)
    requires word == "CIENCIA" && line == "z"
    ensures Judge(word, Start(word), line) == Miss('Z')
    ensures Next(word, Start(word), line) == Snapshot("_______", {'Z'}, Budget - 1)
  {
    CienciaStartMiss(word, Start(word), line);
  }

  /** Secret "CIENCIA", from the start: "z" is a miss that keeps the mask,
      records 'Z' and spends one attempt. */
  lemma CienciaStartMiss(word: string, r: Snapshot, line: string)
    requires word == "CIENCIA" && line == "z" && r == Start(word)
    ensures Judge(word, r, line) == Miss('Z')
    ensures Next(word, r, line) == Snapshot(r.shown, {'Z'}, Budget - 1)
  {
    StartPlaying(word, 0);
    CienciaLacksZ(word);
    AsciiLetterLine(line);
    MissLine(word, r, line, 'Z');
  }

  /** Secret "CIENCIA" after the miss "z": the same letter again, in
      capitals, is rejected and costs nothing more. */
  lemma CienciaRepeatedMiss(word: string, r: Snapshot, line: string)
    requires word == "CIENCIA" && r == Snapshot("_______", {'Z'}, Budget - 1)
    requires line == "Z"
    ensures Judge(word, r, line) == Repeated('Z')
    ensures Next(word, r, line) == r
  {
    assert r.shown[0] == Placeholder && Placeholder !in word;
    HiddenMeansPlaying(word, r);
    AsciiLetterLine(line);
    LetterLine(word, r, line, 'Z');
  }

  /** Secret "CIENCIA" after the miss "z": "Z" four times over still
      leaves the round as it was. */
  lemma CienciaRepeatedMissRun(word: string, r: Snapshot, line: string, lines: seq<string>)
    requires word == "CIENCIA" && r == Snapshot("_______", {'Z'}, Budget - 1)
    requires line == "Z" && lines == [line, line, line, line]
    ensures Run(word, r, lines) == r
  {
    CienciaRepeatedMiss(word, r, line);
    SameLineAgain(word, r, line, lines);
  }

  /** A line that leaves the round as it was leaves it so however many
      times it is given. */
  lemma {:induction false} SameLineAgain(word: string, r: Snapshot, line: string, lines: seq<string>)
    requires Next(word, r, line) == r
    requires forall k :: 0 <= k < |lines| ==> lines[k] == line
    ensures Run(word, r, lines) == r
  {
    if lines != [] && PhaseOf(word, r) == Playing {
      assert lines[0] == line;
      SameLineAgain(word, r, line, lines[1..]);
    }
  }

  /** Secret "funci\U{F3}n": every position starts hidden, and the folded
      letter 'O' finds position 5, the accented one, and no other. */
  lemma FuncionLetters(word: string)
    requires word == "funci\U{F3}n"
    ensures Start(word).shown == "_______"
    ensures forall i :: 0 <= i < |word| ==> (Matches(word[i], 'O') <==> i == 5)
  {
    forall i | 0 <= i < |word| ensures Matches(word[i], 'O') <==> i == 5 {
      if i == 5 {
        KeyOfPair(word[i]);
      } else {
        KeyOfAsciiChar(word[i]);
      }
    }
  }

  /** Secret "funci\U{F3}n": the bare "o" finds the accented letter, and the
      mask shows it with its accent. */
  lemma FuncionAccentedGuess(word: string, line: string)
    requires word == "funci\U{F3}n" && line == "o"
    ensures Judge(word, Start(word), line) == Hit('O')
    ensures Next(word, Start(word), line) == Snapshot("_____\U{F3}_", {'O'}, Budget)
  {
    StartPlaying(word, 0);
    FuncionLetters(word);
    AsciiLetterLine(line);
    assert Matches(word[5], 'O');
    LetterLine(word, Start(word), line, 'O');
    RevealSingle(word, Start(word).shown, 'O', 5);
    HitNext(word, Start(word), line, 'O');
  }

  /** "docker" and "DOCKER" share one key. */
  lemma DockerKey(word: string, caps: string)
    requires word == "docker" && caps == "DOCKER"
    ensures Normalize(caps) == Normalize(word)
  {
    KeyOfAscii(caps);
    KeyOfAscii(word);
    assert Upper(word) == caps;
  }

  /** Secret "docker": the whole word, in capitals and with spaces around
      it, wins the round at once. */
  lemma DockerWordGuess(word: string, line: string)
    requires word == "docker" && line == " DOCKER "
    ensures Judge(word, Start(word), line) == WordRight
    ensures PhaseOf(word, Next(word, Start(word), line)) == Won
  {
    StartPlaying(word, 0);
    var guess := line[1..7];
    assert TrimStart(line) == line[1..] by {
      assert IsSpace(line[0]) && !IsSpace(line[1]);
      assert TrimStart(line[1..]) == line[1..];
    }
    assert TrimEnd(line[1..]) == guess by {
      assert line[1..][..6] == guess;
      assert TrimEnd(guess) == guess;
    }
    DockerKey(word, guess);
    WordGuess(word, Start(word), line);
  }

  /** Secret "DATOS": the word in lower case wins the round at once. */
  lemma DatosWordGuess(word: string, line: string)
    requires word == "DATOS" && line == "datos"
    ensures Judge(word, Start(word), line) == WordRight
    ensures Next(word, Start(word), line) == Snapshot(word, {}, Budget)
    ensures PhaseOf(word, Next(word, Start(word), line)) == Won
  {
    StartPlaying(word, 0);
    assert TrimStart(line) == line && TrimEnd(line) == line by {
      assert !IsSpace(line[0]) && !IsSpace(line[|line| - 1]);
    }
    assert Normalize(line) == Normalize(word) by {
      KeyOfAscii(line);
      KeyOfAscii(word);
      assert Upper(line) == word && Upper(word) == word;
    }
    WordGuess(word, Start(word), line);
  }
}
