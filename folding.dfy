/** `normalizar`: the comparison key of a text, built in three stages as the
    game builds it: NFKD decomposition, removal of the combining marks, and
    upper-casing. */
module Folding {
  import opened CharData

  /** The NFKD form of `s`, one character at a time. */
  function Nfkd(s: string): (d: string)
    ensures |d| >= |s|
  {
    if s == [] then [] else Decompose(s[0]) + Nfkd(s[1..])
  }

  /** `s` with every combining mark removed, the rest kept in order. */
  function DropMarks(s: string): (r: string)
    ensures |r| <= |s|
    ensures forall i :: 0 <= i < |r| ==> !IsCombining(r[i])
  {
    if s == [] then [] else (if IsCombining(s[0]) then [] else [s[0]]) + DropMarks(s[1..])
  }

  /** `DropMarks` keeps exactly the characters of its argument that are
      not combining marks: every character it returns comes from `s`, every
      non-mark of `s` is among them, and a text without marks is returned
      whole. */
  lemma {:induction false} DropMarksFrom(s: string)
    ensures forall i :: 0 <= i < |DropMarks(s)| ==> DropMarks(s)[i] in s
    ensures forall c :: c in s && !IsCombining(c) ==> c in DropMarks(s)
    ensures (forall i :: 0 <= i < |s| ==> !IsCombining(s[i])) ==> DropMarks(s) == s
  {
    if s != [] {
      DropMarksFrom(s[1..]);
      assert s == [s[0]] + s[1..];
      assert forall c :: c in s <==> c == s[0] || c in s[1..];
      var head := if IsCombining(s[0]) then [] else [s[0]];
      assert DropMarks(s) == head + DropMarks(s[1..]);
      if forall i :: 0 <= i < |s| ==> !IsCombining(s[i]) {
        assert !IsCombining(s[0]);
        assert forall i :: 0 <= i < |s[1..]| ==> !IsCombining(s[1..][i]) by {
          forall i | 0 <= i < |s[1..]| ensures !IsCombining(s[1..][i]) {
            assert s[1..][i] == s[i + 1];
          }
        }
      }
    }
  }

  /** `str.upper` over a whole text. */
  function Upper(s: string): (u: string)
  {
    seq(|s|, i requires 0 <= i < |s| => UpperChar(s[i]))
  }

  /** `str.upper` keeps the length, works character by character, and a
      text in capitals stays as it is. */
  lemma UpperLaws(s: string)
    ensures |Upper(s)| == |s|
    ensures forall i :: 0 <= i < |s| ==> Upper(s)[i] == UpperChar(s[i])
    ensures Upper(Upper(s)) == Upper(s)
  {
    forall i | 0 <= i < |s| ensures Upper(Upper(s))[i] == Upper(s)[i] {
      UpperCharIdempotent(s[i]);
    }
  }

  /** The comparison key of `s` (ahorcado.py, `normalizar`). */
  function Normalize(s: string): string {
    Upper(DropMarks(Nfkd(s)))
  }

  /** The key of one character, read off the tables directly: nothing
      for a combining mark, "FI" for the ligature, otherwise the capital of
      the base letter. `CharKeyIsKey` shows it is what `Normalize` gives. */
  function CharKey(c: char): string {
    if c == '\U{FB01}' then "FI" else if IsCombining(c) then [] else [UpperChar(BaseOf(c))]
  }

  /** A character the folding leaves as it is: it decomposes to itself, is
      not a combining mark and is its own capital. */
  predicate IsPlain(c: char) {
    Decompose(c) == [c] && !IsCombining(c) && UpperChar(c) == c
  }

  /** The NFKD form of a single character is its decomposition. */
  lemma NfkdSingle(c: char)
    ensures Nfkd([c]) == Decompose(c)
  {
    assert [c][0] == c && [c][1..] == [];
    assert Decompose(c) + [] == Decompose(c);
  }

  /** The NFKD form of a concatenation is the concatenation of the NFKD
      forms. */
  lemma {:induction false} NfkdAppend(a: string, b: string)
    ensures Nfkd(a + b) == Nfkd(a) + Nfkd(b)
  {
    if a != [] {
      assert (a + b)[0] == a[0] && (a + b)[1..] == a[1..] + b;
      NfkdAppend(a[1..], b);
    } else {
      assert a + b == b;
    }
  }

  /** A decomposition decomposes no further under NFKD. */
  lemma DecompositionIsNfkd(c: char)
    ensures Nfkd(Decompose(c)) == Decompose(c)
  {
    var d := Decompose(c);
    DecomposeIsFinal(c);
    if |d| == 1 {
      assert d == [d[0]];
      NfkdSingle(d[0]);
    } else {
      assert |d| == 2 && d == [d[0]] + [d[1]];
      NfkdAppend([d[0]], [d[1]]);
      NfkdSingle(d[0]);
      NfkdSingle(d[1]);
    }
  }

  /** NFKD is idempotent: `unicodedata.normalize("NFKD", ...)` of an NFKD
      form is that form. */
  lemma {:induction false} NfkdIdempotent(s: string)
    ensures Nfkd(Nfkd(s)) == Nfkd(s)
  {
    if s != [] {
      NfkdAppend(Decompose(s[0]), Nfkd(s[1..]));
      DecompositionIsNfkd(s[0]);
      NfkdIdempotent(s[1..]);
    }
  }

  /** Removing the marks of a concatenation removes them from each part, so
      the order of what is kept is the order of the input. */
  lemma {:induction false} DropMarksAppend(a: string, b: string)
    ensures DropMarks(a + b) == DropMarks(a) + DropMarks(b)
  {
    if a != [] {
      assert (a + b)[0] == a[0] && (a + b)[1..] == a[1..] + b;
      DropMarksAppend(a[1..], b);
    } else {
      assert a + b == b;
    }
  }

  /** Folding a concatenation folds each part: `normalizar` works character
      by character. */
  lemma NormalizeAppend(a: string, b: string)
    ensures Normalize(a + b) == Normalize(a) + Normalize(b)
  {
    NfkdAppend(a, b);
    DropMarksAppend(Nfkd(a), Nfkd(b));
  }

  /** Folding a non-empty text folds its first character, then the rest. */
  lemma NormalizeCons(s: string)
    requires s != []
    ensures Normalize(s) == Normalize([s[0]]) + Normalize(s[1..])
  {
    assert s == [s[0]] + s[1..];
    NormalizeAppend([s[0]], s[1..]);
  }

  /** Every character of the decomposition of a character that is not a
      combining mark comes out of `str.upper` plain. */
  lemma DecomposedUpperIsPlain(c: char, k: int)
    requires 0 <= k < |Decompose(c)| && !IsCombining(Decompose(c)[k])
    ensures IsPlain(UpperChar(Decompose(c)[k]))
  {
  }

  lemma {:induction false} NfkdChars(s: string, k: int)
    requires 0 <= k < |Nfkd(s)|
    ensures exists c, m :: c in s && 0 <= m < |Decompose(c)| && Decompose(c)[m] == Nfkd(s)[k]
  {
    if k < |Decompose(s[0])| {
      assert Nfkd(s)[k] == Decompose(s[0])[k];
    } else {
      NfkdChars(s[1..], k - |Decompose(s[0])|);
      var c, m :| c in s[1..] && 0 <= m < |Decompose(c)| && Decompose(c)[m] == Nfkd(s[1..])[k - |Decompose(s[0])|];
      assert c in s;
    }
  }

  /** The key has no combining mark left, is upper-case, and decomposes no
      further (ahorcado.py:94-101). */
  lemma NormalizeIsPlain(s: string)
    ensures forall i :: 0 <= i < |Normalize(s)| ==> IsPlain(Normalize(s)[i])
  {
    var d := DropMarks(Nfkd(s));
    DropMarksFrom(Nfkd(s));
    forall i | 0 <= i < |d| ensures IsPlain(UpperChar(d[i])) {
      assert d[i] in Nfkd(s);
      var k :| 0 <= k < |Nfkd(s)| && Nfkd(s)[k] == d[i];
      NfkdChars(s, k);
      var c, m :| c in s && 0 <= m < |Decompose(c)| && Decompose(c)[m] == Nfkd(s)[k];
      DecomposedUpperIsPlain(c, m);
    }
  }

  /** A text of plain characters is its own key. */
  lemma {:induction false} PlainIsFixed(s: string)
    requires forall i :: 0 <= i < |s| ==> IsPlain(s[i])
    ensures Normalize(s) == s
  {
    if s != [] {
      NormalizeCons(s);
      PlainIsFixed(s[1..]);
      KeyOfSimpleChar(s[0]);
    }
  }

  /** Folding twice is folding once. */
  lemma NormalizeIdempotent(s: string)
    ensures Normalize(Normalize(s)) == Normalize(s)
  {
    NormalizeIsPlain(s);
    PlainIsFixed(Normalize(s));
  }

  /** The key of a single character: its decomposition without marks,
      upper-cased. */
  lemma KeyOfChar(c: char)
    ensures Normalize([c]) == Upper(DropMarks(Decompose(c)))
  {
    assert [c][0] == c && [c][1..] == [];
    assert Nfkd([c]) == Decompose(c) + Nfkd([]);
    assert Nfkd([]) == [] && Decompose(c) + [] == Decompose(c);
  }

  /** The key of a character that decomposes to itself. */
  lemma KeyOfSimpleChar(c: char)
    requires Decompose(c) == [c]
    ensures Normalize([c]) == if IsCombining(c) then [] else [UpperChar(c)]
  {
    KeyOfChar(c);
    assert DropMarks([c]) == (if IsCombining(c) then [] else [c]) + DropMarks([]);
  }

  /** The key of a character that decomposes to two characters: those of
      them that are not marks, upper-cased. */
  lemma KeyOfPair(c: char)
    requires |Decompose(c)| == 2
    ensures var d := Decompose(c);
            Normalize([c]) == Upper((if IsCombining(d[0]) then [] else [d[0]])
                                    + (if IsCombining(d[1]) then [] else [d[1]]))
  {
    var d := Decompose(c);
    KeyOfChar(c);
    assert d == [d[0]] + [d[1]];
    DropMarksAppend([d[0]], [d[1]]);
    assert DropMarks([d[0]]) == (if IsCombining(d[0]) then [] else [d[0]]) + DropMarks([]);
    assert DropMarks([d[1]]) == (if IsCombining(d[1]) then [] else [d[1]]) + DropMarks([]);
  }

  /** The key of a single character is `CharKey`. */
  lemma CharKeyIsKey(c: char)
    ensures Normalize([c]) == CharKey(c)
  {
    if Decompose(c) == [c] {
      KeyOfSimpleChar(c);
    } else {
      KeyOfPair(c);
    }
  }

  /** Upper-casing a character before folding it changes nothing. */
  lemma UpperKeepsKey(c: char)
    ensures Normalize([UpperChar(c)]) == Normalize([c])
  {
    var u := UpperChar(c);
    if u != c {
      if Decompose(c) == [c] {
        assert Decompose(u) == [u];
        KeyOfSimpleChar(c);
        KeyOfSimpleChar(u);
      } else {
        var d, e := Decompose(c), Decompose(u);
        assert |d| == 2 && |e| == 2 && UpperChar(d[0]) == e[0] && d[1] == e[1];
        KeyOfPair(c);
        KeyOfPair(u);
      }
    }
  }

  /** Upper-casing before folding changes nothing: the key ignores case. */
  lemma {:induction false} NormalizeIgnoresCase(s: string)
    ensures Normalize(Upper(s)) == Normalize(s)
  {
    if s != [] {
      var u := Upper(s);
      assert u[0] == UpperChar(s[0]) && u[1..] == Upper(s[1..]);
      NormalizeCons(s);
      NormalizeCons(u);
      UpperKeepsKey(s[0]);
      NormalizeIgnoresCase(s[1..]);
    }
  }

  /** The placeholder `_` folds to itself, and no other character folds to
      a key that holds it. */
  lemma PlaceholderKey(c: char)
    ensures '_' in Normalize([c]) <==> c == '_'
    ensures c == '_' ==> Normalize([c]) == "_"
  {
    if Decompose(c) == [c] {
      KeyOfSimpleChar(c);
    } else {
      KeyOfPair(c);
    }
  }

  /** The placeholder `_` is in the key of `s` exactly when it is in `s`. */
  lemma {:induction false} PlaceholderSurvives(s: string)
    ensures '_' in Normalize(s) <==> '_' in s
  {
    if s != [] {
      NormalizeCons(s);
      PlaceholderSurvives(s[1..]);
      PlaceholderKey(s[0]);
      assert '_' in s <==> s[0] == '_' || '_' in s[1..] by {
        assert s == [s[0]] + s[1..];
      }
    }
  }

  /** An ASCII character decomposes to itself and folds to its capital. */
  lemma KeyOfAsciiChar(c: char)
    requires c < '\U{80}'
    ensures Normalize([c]) == [UpperChar(c)]
  {
    assert Decompose(c) == [c];
    KeyOfSimpleChar(c);
  }

  /** An ASCII text folds to its upper-case form. */
  lemma {:induction false} KeyOfAscii(s: string)
    requires forall i :: 0 <= i < |s| ==> s[i] < '\U{80}'
    ensures Normalize(s) == Upper(s)
  {
    if s != [] {
      var u := Upper(s);
      assert u[0] == UpperChar(s[0]) && u[1..] == Upper(s[1..]);
      assert u == [u[0]] + u[1..];
      NormalizeCons(s);
      KeyOfAsciiChar(s[0]);
      KeyOfAscii(s[1..]);
    }
  }

  /** The capitals of the ASCII part of the docstring's example. */
  lemma UpperOfHead(head: string)
    requires head == "programaci"
    ensures Upper(head) == "PROGRAMACI"
  {
    UpperLaws(head);
  }

  /** The example of the docstring: 'programación' folds to 'PROGRAMACION'
      (ahorcado.py:97). */
  lemma DocstringExample(s: string)
    requires s == "programaci\U{F3}n"
    ensures Normalize(s) == "PROGRAMACION"
  {
    var head, accented, tail := s[..10], s[10..11], s[11..];
    assert s == head + accented + tail;
    NormalizeAppend(head + accented, tail);
    NormalizeAppend(head, accented);
    KeyOfAscii(head);
    UpperOfHead(head);
    KeyOfAscii(tail);
    assert Upper(tail) == "N";
    assert accented == [accented[0]] && accented[0] == '\U{F3}';
    KeyOfPair(accented[0]);
  }

  /** An accented letter and its bare capital share one key, and so do a
      word and its capitals. */
  lemma AccentAndCaseExamples(accented: string, bare: string, word: string, caps: string)
    requires accented == "\U{F3}" && bare == "O"
    requires word == "Ecuador" && caps == "ECUADOR"
    ensures Normalize(accented) == Normalize(bare) == bare
    ensures Normalize(word) == Normalize(caps) == caps
  {
    KeyOfAscii(bare);
    KeyOfPair(accented[0]);
    KeyOfAscii(word);
    KeyOfAscii(caps);
    assert Upper(word) == caps && Upper(caps) == caps;
  }
}
