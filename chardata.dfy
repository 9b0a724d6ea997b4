/** Stand-ins for the parts of Python's Unicode support that the game relies
    on: the NFKD decomposition of a character, `unicodedata.combining`,
    `str.upper`, `str.isalpha`, `str.isspace` and `str.strip`. The tables cover
    the accented letters of Spanish, one compatibility ligature and the Latin-1
    range; the full Unicode database is not modelled. */
module CharData {

  /** `unicodedata.combining(c) != 0`: the Combining Diacritical Marks block,
      without U+034F COMBINING GRAPHEME JOINER, whose combining class is 0. */
  predicate IsCombining(c: char) {
    '\U{0300}' <= c <= '\U{036F}' && c != '\U{034F}'
  }

  /** The NFKD decomposition of one character (Unicode Standard Annex #15):
      the Spanish accented letters split into a base letter and a combining
      mark, the ligature U+FB01 splits into "fi", every other character of
      the model decomposes to itself. */
  function Decompose(c: char): (d: string)
    ensures |d| >= 1
    ensures d == [c] || !IsCombining(d[0])
    ensures MarkOf(c) != c ==> d == [BaseOf(c), MarkOf(c)] && !IsCombining(d[0]) && IsCombining(d[1])
    ensures MarkOf(c) == c && c != '\U{FB01}' ==> d == [c]
    ensures c == '\U{FB01}' ==> d == ['f', 'i']
  {
    if c == '\U{FB01}' then ['f', 'i']
    else if MarkOf(c) != c then [BaseOf(c), MarkOf(c)]
    else [c]
  }

  /** The combining mark an accented Spanish letter decomposes into: the
      acute U+0301, the diaeresis U+0308 or the tilde U+0303. Every other
      character is returned as it is. */
  function MarkOf(c: char): char {
    if c == '\U{E1}' || c == '\U{E9}' || c == '\U{ED}' || c == '\U{F3}' || c == '\U{FA}'
       || c == '\U{C1}' || c == '\U{C9}' || c == '\U{CD}' || c == '\U{D3}' || c == '\U{DA}' then '\U{0301}'
    else if c == '\U{FC}' || c == '\U{DC}' then '\U{0308}'
    else if c == '\U{F1}' || c == '\U{D1}' then '\U{0303}'
    else c
  }

  /** The base letter of an accented Spanish letter; every other
      character is its own base. */
  function BaseOf(c: char): char {
    if c == '\U{E1}' then 'a'
    else if c == '\U{E9}' then 'e'
    else if c == '\U{ED}' then 'i'
    else if c == '\U{F3}' then 'o'
    else if c == '\U{FA}' || c == '\U{FC}' then 'u'
    else if c == '\U{F1}' then 'n'
    else if c == '\U{C1}' then 'A'
    else if c == '\U{C9}' then 'E'
    else if c == '\U{CD}' then 'I'
    else if c == '\U{D3}' then 'O'
    else if c == '\U{DA}' || c == '\U{DC}' then 'U'
    else if c == '\U{D1}' then 'N'
    else c
  }

  /** `str.upper` on one character: ASCII and Latin-1 lower-case letters map
      to their capitals (U+00F7 DIVISION SIGN is not a letter). */
  function UpperChar(c: char): (u: char)
    ensures u == c || ('a' <= c <= 'z' && u as int == c as int - 32)
                   || ('\U{E0}' <= c <= '\U{FE}' && u as int == c as int - 32)
    ensures 'a' <= c <= 'z' ==> 'A' <= u <= 'Z' && u as int == c as int - 32
    ensures u != c ==> IsAlpha(c) && IsAlpha(u)
    ensures !('a' <= u <= 'z') && !('\U{E0}' <= u <= '\U{FE}' && u != '\U{F7}')
  {
    if 'a' <= c <= 'z' || ('\U{E0}' <= c <= '\U{FE}' && c != '\U{F7}') then
      (c as int - 32) as char
    else
      c
  }

  /** `str.isalpha` on one character: ASCII letters, the Latin-1 letters
      (without the signs U+00D7 and U+00F7) and the ligature U+FB01.
      Combining marks, digits, punctuation and `_` are not letters. */
  predicate IsAlpha(c: char) {
    ('A' <= c <= 'Z') || ('a' <= c <= 'z')
    || c == '\U{AA}' || c == '\U{B5}' || c == '\U{BA}'
    || ('\U{C0}' <= c <= '\U{FF}' && c != '\U{D7}' && c != '\U{F7}')
    || c == '\U{FB01}'
  }

  /** The accented letters of the table: each is a letter whose base is
      an ASCII letter and whose mark is a combining mark; every other
      character is its own base. */
  lemma AccentedLetters(c: char)
    ensures MarkOf(c) != c ==> IsAlpha(c) && 'A' <= UpperChar(BaseOf(c)) <= 'Z'
                                && IsCombining(MarkOf(c))
    ensures MarkOf(c) == c ==> BaseOf(c) == c
  {
  }

  /** A decomposition is final: each of its characters decomposes to
      itself. */
  lemma DecomposeIsFinal(c: char)
    ensures forall k :: 0 <= k < |Decompose(c)| ==> Decompose(Decompose(c)[k]) == [Decompose(c)[k]]
  {
    var d := Decompose(c);
    if d != [c] {
      assert |d| == 2;
      assert MarkOf(d[0]) == d[0] && MarkOf(d[1]) == d[1];
    }
  }

  /** Upper-casing is idempotent: a capital is its own capital. */
  lemma UpperCharIdempotent(c: char)
    ensures UpperChar(UpperChar(c)) == UpperChar(c)
  {
  }

  /** `str.isspace` on one character: the characters Python treats as
      whitespace. */
  predicate IsSpace(c: char) {
    c == ' ' || ('\t' <= c <= '\r') || ('\U{1C}' <= c <= '\U{1F}')
    || c == '\U{85}' || c == '\U{A0}' || c == '\U{1680}'
    || ('\U{2000}' <= c <= '\U{200A}')
    || c == '\U{2028}' || c == '\U{2029}' || c == '\U{202F}'
    || c == '\U{205F}' || c == '\U{3000}'
  }

  /** Drops the leading whitespace of `s`. */
  function TrimStart(s: string): string {
    if s != [] && IsSpace(s[0]) then TrimStart(s[1..]) else s
  }

  /** Drops the trailing whitespace of `s`. */
  function TrimEnd(s: string): string {
    if s != [] && IsSpace(s[|s| - 1]) then TrimEnd(s[..|s| - 1]) else s
  }

  /** `str.strip()`: `s` without its leading and trailing whitespace. */
  function Strip(s: string): string {
    TrimEnd(TrimStart(s))
  }

  /** `TrimStart` keeps a suffix of `s` that does not start with
      whitespace, and everything it cuts off is whitespace. */
  lemma {:induction false} TrimStartCuts(s: string)
    ensures var t := TrimStart(s);
            && |t| <= |s| && t == s[|s| - |t|..]
            && (forall k :: 0 <= k < |s| - |t| ==> IsSpace(s[k]))
            && (t != [] ==> !IsSpace(t[0]))
  {
    if s != [] && IsSpace(s[0]) {
      TrimStartCuts(s[1..]);
      var t := TrimStart(s[1..]);
      assert s[1..][|s| - 1 - |t|..] == s[|s| - |t|..];
      forall k | 1 <= k < |s| - |t| ensures IsSpace(s[k]) {
        assert s[k] == s[1..][k - 1];
      }
    }
  }

  /** `TrimEnd` keeps a prefix of `s` that does not end with whitespace,
      and everything it cuts off is whitespace. */
  lemma {:induction false} TrimEndCuts(s: string)
    ensures var t := TrimEnd(s);
            && |t| <= |s| && t == s[..|t|]
            && (forall k :: |t| <= k < |s| ==> IsSpace(s[k]))
            && (t != [] ==> !IsSpace(t[|t| - 1]))
  {
    if s != [] && IsSpace(s[|s| - 1]) {
      var p := s[..|s| - 1];
      TrimEndCuts(p);
      var t := TrimEnd(p);
      assert p[..|t|] == s[..|t|];
      forall k | |t| <= k < |s| - 1 ensures IsSpace(s[k]) {
        assert s[k] == p[k];
      }
    }
  }

  /** `s[i..j]` is what is left of `s` once the whitespace before `i` and
      from `j` on is cut off. */
  ghost predicate Trims(s: string, i: int, j: int) {
    0 <= i <= j <= |s|
    && (forall k :: 0 <= k < i ==> IsSpace(s[k]))
    && (forall k :: j <= k < |s| ==> IsSpace(s[k]))
  }

  /** What `Strip` cuts off is whitespace, what it keeps is one contiguous
      part of `s`, and that part neither starts nor ends with
      whitespace. */
  lemma StripCutsSpace(s: string)
    ensures exists i, j :: Trims(s, i, j) && Strip(s) == s[i..j]
    ensures var t := Strip(s); t != [] ==> !IsSpace(t[0]) && !IsSpace(t[|t| - 1])
  {
    var front := TrimStart(s);
    var t := TrimEnd(front);
    TrimStartCuts(s);
    TrimEndCuts(front);
    var i, j := |s| - |front|, |s| - |front| + |t|;
    assert t == s[i..j];
    forall k | j <= k < |s| ensures IsSpace(s[k]) {
      assert s[k] == front[k - i];
    }
    assert Trims(s, i, j);
    if t != [] {
      assert t[0] == front[0];
    }
  }

  /** Stripping twice is stripping once. */
  lemma {:induction false} StripIdempotent(s: string)
    ensures Strip(Strip(s)) == Strip(s)
  {
    var t := Strip(s);
    StripCutsSpace(s);
    if t != [] {
      assert TrimStart(t) == t;
      assert TrimEnd(t) == t;
    }
  }
}
