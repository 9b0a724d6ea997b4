# Hangman (ahorcado.py) in Dafny

This project models the core of a console hangman game written in Python
(`ahorcado.py`) and proves properties of it. The model covers three parts:

- **The comparison key** (`normalizar`). A text is decomposed (NFKD), its
  combining marks are dropped and the result is upper-cased. Two texts that
  differ only in accents or case get the same key.
- **One round of play** (`jugar_una_partida`). The secret word comes from the
  word list `PALABRAS`. The mask starts with every letter hidden, the set of
  letters tried starts empty, and the round starts with 6 attempts. Each pass
  of the `while intentos >= 0` loop does the following in order:
  - it checks whether the round is already won;
  - it reads and strips one line;
  - it ignores an empty line;
  - it treats a line of two or more characters as a guess of the whole word;
  - it treats a one-character line as a letter, which is rejected when its
    key is not alphabetic or was already tried;
  - otherwise it reveals every position whose key is that letter, and costs
    one attempt when nothing was found.
- **The gallows picture** shown for a number of attempts (`mostrar_estado`).

The model is in five modules, plus one module of worked rounds:

- `CharData` (`chardata.dfy`): the Unicode facts the game relies on, for a
  part of Unicode only (see "## Left out"). It holds the decomposition of
  the Spanish accented letters and of the ligature U+FB01, the combining
  marks of the block U+0300-U+036F, upper-casing and letters for ASCII and
  Latin-1, the whitespace of `str.isspace`, and `str.strip`.
- `Folding` (`folding.dfy`): the key `Normalize` and its laws.
- `Rules` (`rules.dfy`): a round as values. `Snapshot` is the mask, the
  letters tried and the attempts left. `Judge` classifies one line into a
  `Move`, `Next` gives the snapshot after it, and `Run` plays a sequence of
  lines. `Reachable` is the invariant of a round.
- `Game` (`game.dfy`): the round as the program runs it. `Round` is a class
  whose fields are the round's variables. `Step` is one pass of the loop,
  `RevealLetter` is the scan loop, and `PlayRound` is the game loop over the
  lines it is given. Each method is proved against `Judge`, `Next` and `Run`.
- `Gallows` (`gallows.dfy`): the index of the picture drawn.
- `Scenarios` (`scenarios.dfy`): concrete rounds worked out on the model.

Three consequences of the code are worth spelling out:

- The loop runs while `intentos >= 0`, and a round starts with 6 attempts.
  A round is therefore lost on the seventh costly move, and the attempts
  end at -1 (`Rules.LostOnSeventhMiss`).
- A letter tried a second time is rejected and costs nothing, whether it
  was a hit or a miss. After the miss "z" with secret "CIENCIA", "Z" given
  again and again leaves the round as it was, so a wrong letter costs one
  attempt however often it is repeated (`Scenarios.CienciaMissedGuess`,
  `Scenarios.CienciaRepeatedMiss`, `Scenarios.CienciaRepeatedMissRun`,
  `Rules.UnchangedIffRejected`).
- A line that strips to one character but whose key is empty makes the
  program fail at line 157. The model rejects such a line instead (see
  "## Findings").

## Model

| member | source | states |
|---|---|---|
| CharData.IsCombining | ahorcado.py:100 | `unicodedata.combining` as a test: the combining marks of U+0300-U+036F, except U+034F, which has combining class 0. |
| CharData.MarkOf | ahorcado.py:99 | The combining mark an accented Spanish letter carries in its NFKD form: U+0301 for the acute vowels, U+0308 for ü, U+0303 for ñ, in both cases; any other character has none (`CharData.AccentedLetters`). |
| CharData.BaseOf | ahorcado.py:99 | The base letter of an accented Spanish letter; any other character is its own base (`CharData.AccentedLetters`). |
| CharData.AccentedLetters | ahorcado.py:99 | A character with a mark is a letter, its base upper-cases to an ASCII capital and its mark is a combining mark; a character without a mark is its own base. |
| CharData.Decompose | ahorcado.py:99 | The NFKD form of one character is never empty. An accented letter splits into its base, which is not a mark, followed by its combining mark; the ligature U+FB01 gives "fi"; every other character is its own decomposition. |
| CharData.DecomposeIsFinal | ahorcado.py:99 | Each character of a decomposition decomposes to itself, so NFKD does not need a second pass. |
| CharData.UpperChar | ahorcado.py:101 | `str.upper` on one character: a lower-case ASCII letter becomes its capital, 32 code points down, and so does a lower-case Latin-1 letter. A character it changes is a letter and stays a letter. The result is never one it would change again. |
| CharData.UpperCharIdempotent | ahorcado.py:101 | Upper-casing a capital changes nothing. |
| CharData.IsAlpha | ahorcado.py:122 | `str.isalpha` for ASCII and Latin-1 letters, the ordinal indicators, µ and the ligature U+FB01. |
| CharData.IsSpace | ahorcado.py:136 | The characters `str.strip` removes: those `str.isspace` accepts. |
| CharData.TrimStart | ahorcado.py:136 | The line without its leading whitespace (`CharData.TrimStartCuts`). |
| CharData.TrimEnd | ahorcado.py:136 | The line without its trailing whitespace (`CharData.TrimEndCuts`). |
| CharData.Strip | ahorcado.py:136 | `str.strip`: the line without leading and trailing whitespace (`CharData.StripCutsSpace`, `CharData.StripIdempotent`). |
| CharData.TrimStartCuts | ahorcado.py:136 | Cutting leading whitespace keeps a suffix of the line that does not start with whitespace, and all it removes is whitespace. |
| CharData.TrimEndCuts | ahorcado.py:136 | Cutting trailing whitespace keeps a prefix of the line that does not end with whitespace, and all it removes is whitespace. |
| CharData.StripCutsSpace | ahorcado.py:136 | Strip keeps one contiguous part of the line, neither starting nor ending with whitespace, and everything it removes before and after that part is whitespace. |
| CharData.StripIdempotent | ahorcado.py:136 | Stripping an already stripped line changes nothing. |
| Folding.Nfkd | ahorcado.py:99 | The NFKD form of a text is at least as long as the text. `Folding.NfkdSingle` and `Folding.NfkdAppend` say that it replaces each character by its decomposition. |
| Folding.NfkdSingle | ahorcado.py:99 | The NFKD form of one character is its decomposition. |
| Folding.NfkdAppend | ahorcado.py:99 | The NFKD form of a concatenation is the concatenation of the NFKD forms. |
| Folding.DecompositionIsNfkd | ahorcado.py:99 | The NFKD form of a decomposition is that decomposition. |
| Folding.NfkdIdempotent | ahorcado.py:99 | The NFKD form of an NFKD form is itself. |
| Folding.DropMarks | ahorcado.py:100 | Removing combining marks never lengthens the text and leaves no combining mark. `Folding.DropMarksFrom` and `Folding.DropMarksAppend` say that it keeps every non-mark, in order. |
| Folding.DropMarksFrom | ahorcado.py:100 | A character survives mark removal exactly when it is in the input and is not a mark. A text without marks is kept whole. |
| Folding.DropMarksAppend | ahorcado.py:100 | Removing the marks of a concatenation removes them from each part, so what is kept stays in the input's order. |
| Folding.Upper | ahorcado.py:101 | `str.upper` over a text, one character at a time (`Folding.UpperLaws`). |
| Folding.UpperLaws | ahorcado.py:101 | Upper-casing keeps the length, maps each character by `UpperChar`, and changes nothing in a text already upper-cased. |
| Folding.Normalize | ahorcado.py:94-101 | `normalizar`: NFKD, then mark removal, then upper-casing. The laws below characterise it. |
| Folding.NormalizeAppend | ahorcado.py:94-101 | The key of a concatenation is the concatenation of the keys. |
| Folding.NormalizeIsPlain | ahorcado.py:94-101 | Every character of a key is plain: it decomposes to itself, is not a mark and is its own capital. |
| Folding.PlainIsFixed | ahorcado.py:94-101 | A text of plain characters is its own key. |
| Folding.NormalizeIdempotent | ahorcado.py:94-101 | The key of a key is the key itself. |
| Folding.KeyOfSimpleChar | ahorcado.py:94-101 | A character that decomposes to itself has as key its capital, or nothing if it is a combining mark. |
| Folding.KeyOfPair | ahorcado.py:94-101 | An accented letter has as key its base letter in capitals, with the mark removed. |
| Folding.CharKeyIsKey | ahorcado.py:175 | The key of one character, the one the scan compares with the letter, is nothing for a combining mark, "FI" for the ligature, and otherwise the capital of the base letter. |
| Folding.UpperKeepsKey | ahorcado.py:94-101 | Upper-casing one character first does not change its key. |
| Folding.NormalizeIgnoresCase | ahorcado.py:94-101 | Upper-casing a text first does not change its key. |
| Folding.PlaceholderKey | ahorcado.py:94-101 | The key of one character contains `_` exactly when the character is `_`, and then the key is `_`. |
| Folding.PlaceholderSurvives | ahorcado.py:94-101 | A key contains `_` exactly when the text does, so a mask with a hidden position never folds to a word without `_`. |
| Folding.KeyOfAsciiChar | ahorcado.py:94-101 | An ASCII character has as key its capital. |
| Folding.KeyOfAscii | ahorcado.py:94-101 | An ASCII text has as key its upper-case form. |
| Folding.DocstringExample | ahorcado.py:97 | The docstring's example: 'programación' folds to 'PROGRAMACION'. |
| Folding.AccentAndCaseExamples | ahorcado.py:94-101 | 'ó' and 'O' both fold to "O", and 'Ecuador' and 'ECUADOR' both fold to "ECUADOR". |
| Rules.Lexicon | ahorcado.py:83-88 | The twenty words of `PALABRAS`, in order (`Rules.LexiconWords`). |
| Rules.Start | ahorcado.py:120-124 | The round's first snapshot: the initial mask, no letter tried, 6 attempts (`Rules.StartReachable`, `Rules.LexiconStart`). |
| Rules.PhaseOf | ahorcado.py:126-131 | The loop guard and the win check: lost below zero attempts, won when the mask has the word's key, in play otherwise (`Rules.WonIffFullyShown`, `Rules.OverIsFinal`). |
| Rules.Judge | ahorcado.py:126-183 | What one pass does with a line, in the program's order of checks (`Rules.UnchangedIffRejected`, `Rules.LetterGuess`, `Rules.WordGuess`, `Rules.EmptyKeyRejected`). |
| Rules.Reveal | ahorcado.py:174-177 | The mask after the scan for a letter (`Rules.RevealMask`, `Game.Round.RevealLetter`). |
| Rules.Next | ahorcado.py:126-185 | The snapshot after one pass (`Rules.AttemptsStep`, `Rules.NextReachable`, `Rules.NextMonotone`, `Rules.LossBoundary`). |
| Rules.Run | ahorcado.py:126-185 | The round played over a sequence of lines, up to its end (`Rules.RunReachable`, `Rules.RunAttempts`, `Rules.RunMonotone`, `Rules.LostOnSeventhMiss`). |
| Rules.InitialMask | ahorcado.py:122 | The starting mask is as long as the word; each letter is hidden and every other character is shown as it is. |
| Rules.LetterAsWritten | ahorcado.py:157 | The letter taken from a one-character guess, as written: defined only for a non-empty key, and then a plain character that is its own key. |
| Rules.LoneMarkBreaksLetterAsWritten | ahorcado.py:136-157 | A lone combining acute accent survives the strip as a one-character guess whose key is empty, so line 157 indexes an empty string. |
| Rules.EmptyKeyRejected | ahorcado.py:157-163 | Corrected rule: in a round in play, any line that strips to one character with an empty key is rejected as not a letter and changes nothing. |
| Rules.LoneMarkEmptyKey | ahorcado.py:136-157 | Every combining mark on its own survives the strip and has an empty key. |
| Rules.LoneMarkRejected | ahorcado.py:157-163 | Corrected rule: in a round in play, every lone combining mark is rejected as not a letter and changes nothing. |
| Rules.StartReachable | ahorcado.py:120-124 | A round starts in its invariant. |
| Rules.StartPlaying | ahorcado.py:122-131 | A word with a letter and without `_` is not won before the first guess. |
| Rules.LexiconWords | ahorcado.py:83-88 | Every word of the list is non-empty, has no `_` and consists of letters only. |
| Rules.LexiconStart | ahorcado.py:83-88 | A round with a listed word starts with every position hidden and in play. |
| Rules.RevealMask | ahorcado.py:174-177 | Revealing a new letter turns the mask for the letters tried into the mask for those letters plus the new one. |
| Rules.MissKeepsMask | ahorcado.py:172-183 | A letter the word lacks reveals nothing: the mask for the letters tried plus that letter is the mask for the letters tried. |
| Rules.UnchangedIffRejected | ahorcado.py:126-185 | A pass leaves the round unchanged exactly when the line is rejected: the round is over, or the line is blank, not a letter or a repeated letter. |
| Rules.LetterGuess | ahorcado.py:157-183 | A letter guess: the letter is the alphabetic first character of the key of a one-character line and was not tried before. It is added to the letters tried. Exactly the positions whose key is that letter now show the word's own character. It costs an attempt exactly when it finds nothing. |
| Rules.WordGuess | ahorcado.py:142-154 | A guess of two or more characters with the word's key shows the whole word and wins whatever letters were tried. Any other such guess only costs one attempt. |
| Rules.AttemptsStep | ahorcado.py:150-183 | A pass lowers the attempts by one exactly on a costly move and never raises them. |
| Rules.NextReachable | ahorcado.py:126-185 | Every pass of the loop keeps the round's invariant. |
| Rules.NextMonotone | ahorcado.py:126-185 | A pass never hides a shown position, never forgets a letter and never adds attempts. |
| Rules.LossBoundary | ahorcado.py:126-183 | A costly move with no attempt left loses the round; with attempts left the round stays in play. |
| Rules.OverIsFinal | ahorcado.py:126-133 | Once a round is won or lost no line is read and nothing changes. |
| Rules.WinByLetters | ahorcado.py:131-177 | When every letter of the word has been found, the mask is the word and the round is won. |
| Rules.WonIffFullyShown | ahorcado.py:131 | For a word without `_`, the round is won exactly when the whole word is shown and attempts are not exhausted. |
| Rules.RunReachable | ahorcado.py:126-185 | The invariant holds until the round ends. |
| Rules.RunAttempts | ahorcado.py:124-183 | The attempts at the end are the starting attempts minus the costly moves. |
| Rules.RunMonotone | ahorcado.py:126-185 | Over a whole round, letters tried and positions shown stay, and attempts only go down. |
| Rules.LostOnSeventhMiss | ahorcado.py:124-191 | From the start of a round, the attempts never drop below -1, and the round is lost exactly when the seventh costly move is made. |
| Game.Round.constructor | ahorcado.py:120-124 | A new round with a listed word stores it with its key and starts from the start snapshot, in its invariant. |
| Game.Round.Phase | ahorcado.py:126-131 | The loop guard and the win check, computed from the stored key, agree with the rules. |
| Game.Round.Step | ahorcado.py:126-185 | One pass of the loop returns the move the rules assign to the line, leaves the snapshot the rules give, and keeps the invariant. |
| Game.Round.RevealLetter | ahorcado.py:172-177 | The scan shows the word's own character at exactly the positions whose key is the letter, reports whether there was one, and changes nothing when there was none. |
| Game.PlayRound | ahorcado.py:118-191 | The game loop over a sequence of lines ends where the rules say. It is lost exactly after seven costly moves, and won exactly when the whole word is shown with attempts left. The attempts never go below -1. |
| Gallows.PictureIndex | ahorcado.py:112 | The picture index as written is always a valid index: 6 for no attempts left and 0 for six or more. |
| Gallows.PictureIndexInverted | ahorcado.py:109-112 | As written, a fresh round with 6 attempts draws picture 0, the complete hangman, and fewer attempts draw an equal or higher index, which never shows more of the hangman. |
| Gallows.IntendedPictureIndex | ahorcado.py:109-111 | The index the comments describe is always valid: 6, the empty gallows, for six or more attempts, and 0, the complete hangman, for none. |
| Gallows.IntendedPictureIndexMonotone | ahorcado.py:109-111 | With the intended index, losing attempts never moves back toward the empty gallows. |
| Scenarios.CienciaFirstGuess | ahorcado.py:157-183 | With secret "CIENCIA", guessing "C" is a hit that reveals positions 0 and 4 and costs nothing. |
| Scenarios.CienciaRepeatedGuess | ahorcado.py:165-168 | With secret "CIENCIA" after "C", the guess "c" is rejected as already tried and changes nothing. |
| Scenarios.CienciaMissedGuess | ahorcado.py:157-183 | With secret "CIENCIA", guessing "z" is a miss that reveals nothing, records 'Z' and costs one attempt. |
| Scenarios.CienciaStartMiss | ahorcado.py:157-183 | With secret "CIENCIA" at the start, "z" is a miss that keeps the mask, records 'Z' and spends one attempt. |
| Scenarios.CienciaRepeatedMiss | ahorcado.py:165-168 | With secret "CIENCIA" after the miss "z", the guess "Z" is rejected as already tried and changes nothing. |
| Scenarios.CienciaRepeatedMissRun | ahorcado.py:126-168 | With secret "CIENCIA" after the miss "z", four more lines "Z" leave the round as it was. |
| Scenarios.SameLineAgain | ahorcado.py:126-168 | A line that leaves the round unchanged leaves it unchanged however many times it is given. |
| Scenarios.FuncionAccentedGuess | ahorcado.py:157-177 | With secret "función", the bare "o" is a hit that shows the accented "ó" at position 5. |
| Scenarios.DockerKey | ahorcado.py:94-101 | "docker" and "DOCKER" have the same key. |
| Scenarios.DockerWordGuess | ahorcado.py:136-149 | With secret "docker", the line " DOCKER " guesses the word and wins. |
| Scenarios.DatosWordGuess | ahorcado.py:142-149 | With secret "DATOS", the lower-case guess "datos" shows the word and wins at once. |

## Left out

- Console I/O is not modelled: `limpiar_consola` (ahorcado.py:90-92), the printed messages, and the "Pulsa Enter" pauses. The lines the player types are a parameter of `Game.PlayRound`.
- The random choice of the word (`elegir_palabra`, ahorcado.py:103-105) is not modelled. The secret is a parameter, required to be one of the listed words.
- The replay loop of `main` (ahorcado.py:193-200) is not modelled; it only starts fresh rounds.
- `Game.PlayRound` stops when its lines run out. The program would wait for more input.
- The drawings themselves (ahorcado.py:16-80) are not modelled; only their count, 7, is used.
- The display of the mask and of the sorted letters tried (ahorcado.py:114-116) is not modelled, because it only formats text.
- CharData.IsAlpha: covers only A-Z, a-z, ª, µ, º, U+00C0-U+00FF except × and ÷, and U+FB01; every other letter `str.isalpha` accepts (Greek, Cyrillic, Latin Extended and the rest) is taken as not a letter. With secret "python", the line "ж" is a miss in the program ('Ж' is added and the attempts go to 5) but `NotALetter` with no change in the model.
- CharData.IsCombining: covers only U+0300-U+036F except U+034F; other marks, such as U+20D0, are kept by the model where the program drops them. With secret "docker", the line "docker" followed by U+20D0 wins in the program but is `WordWrong` in the model.
- CharData.Decompose: only á, é, í, ó, ú, ü, ñ, their capitals and U+FB01 decompose; every other character is taken as its own decomposition. With secret "programación", the line "ā" (U+0101) is a hit on 'A' in the program but `NotALetter` in the model; with secret "computadora", the line "ç" is a hit on 'C' in the program but `Miss('Ç')` in the model.
- CharData.UpperChar: covers ASCII and Latin-1 only, one character to one. The real `str.upper` maps some characters to other values, for example ß to "SS", ÿ to Ÿ and µ to Μ, and upper-cases letters beyond Latin-1; the model keeps those characters unchanged.
- Folding.Nfkd: its own contract gives only the length bound; that each character is replaced by its decomposition is stated by `Folding.NfkdSingle` and `Folding.NfkdAppend`.
- Folding.DropMarks: its own contract does not say that non-marks are kept, in order; `Folding.DropMarksFrom` and `Folding.DropMarksAppend` state it.
- Game.Round.Step: when a one-character line has an empty key, it returns `NotALetter` and changes nothing, where the program raises an error (see "## Findings").

## Findings

| source | as written | input that shows it | evidently intended | confidence | as-written member | corrected member |
|---|---|---|---|---|---|---|
| ahorcado.py:157 | The letter is taken as the first character of the key of the stripped one-character guess, with no check that the key is non-empty. | The line holding only U+0301, a lone combining acute accent. It is not whitespace, so the strip keeps it, and its key is empty, so the indexing raises IndexError and ends the game. | Reject the line as not a letter, like any other non-letter input. The model's `Rules.Judge` and `Game.Round.Step` do this. | not executed; medium | Rules.LoneMarkBreaksLetterAsWritten | Rules.EmptyKeyRejected |
| ahorcado.py:112 | The picture index is 6 minus the attempts, clamped to 0..6. | 6 attempts left (a fresh round) gives index 0, the complete hangman (line 15), which is also the loss picture (line 189); 0 attempts left gives the empty gallows. | The index the comment at lines 109-111 describes: the empty gallows at 6 attempts and the complete hangman at 0, which is the attempts clamped to 0..6. No other member of the model draws pictures. | not executed; high | Gallows.PictureIndexInverted | Gallows.IntendedPictureIndexMonotone |
