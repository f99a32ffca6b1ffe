/**
 * The string operations the Python handlers and the browser scripts rely on:
 * case mapping, whitespace stripping, splitting, title-casing and integer
 * parsing. Python and JavaScript apply these to all of Unicode; the model
 * restricts them to ASCII (letters, digits and the six ASCII whitespace
 * characters), which is what the column names, months and search values of
 * the application use.
 */
module Text {
  import opened Base

  // ---------------------------------------------------------------------
  // Character classes
  // ---------------------------------------------------------------------

  /**
   * Whitespace: space, tab, line feed, vertical tab, form feed, carriage
   * return. Python also counts `\x1c`-`\x1f` and the Unicode spaces, which
   * are not modelled.
   */
  predicate IsSpace(c: char)
  {
    c == ' ' || c == '\t' || c == '\n' || c == '\r' || c as int == 11 || c as int == 12
  }

  predicate IsLowerLetter(c: char) { 'a' <= c <= 'z' }

  predicate IsUpperLetter(c: char) { 'A' <= c <= 'Z' }

  predicate IsLetter(c: char) { IsLowerLetter(c) || IsUpperLetter(c) }

  predicate IsDigit(c: char) { '0' <= c <= '9' }

  /** JavaScript's regular-expression class `\w`. */
  predicate IsWordChar(c: char) { IsLetter(c) || IsDigit(c) || c == '_' }

  predicate NoSpace(s: string)
  {
    forall i | 0 <= i < |s| :: !IsSpace(s[i])
  }

  predicate AllSpace(s: string)
  {
    forall i | 0 <= i < |s| :: IsSpace(s[i])
  }

  predicate StartsWith(s: string, prefix: string)
  {
    |prefix| <= |s| && s[..|prefix|] == prefix
  }

  predicate EndsWith(s: string, suffix: string)
  {
    |suffix| <= |s| && s[|s| - |suffix|..] == suffix
  }

  // ---------------------------------------------------------------------
  // Case mapping (`str.upper()`, `str.lower()`, `toUpperCase`, `toLowerCase`)
  // ---------------------------------------------------------------------

  function UpperChar(c: char): (u: char)
    ensures !IsLowerLetter(u)
    ensures IsLetter(u) <==> IsLetter(c)
    ensures IsWordChar(u) <==> IsWordChar(c)
    ensures !IsLowerLetter(c) ==> u == c
  {
    if IsLowerLetter(c) then (c as int - 32) as char else c
  }

  function LowerChar(c: char): (l: char)
    ensures !IsUpperLetter(l)
    ensures IsLetter(l) <==> IsLetter(c)
    ensures IsWordChar(l) <==> IsWordChar(c)
    ensures !IsUpperLetter(c) ==> l == c
  {
    if IsUpperLetter(c) then (c as int + 32) as char else c
  }

  function Upper(s: string): (r: string)
    ensures |r| == |s|
    ensures forall i | 0 <= i < |s| :: r[i] == UpperChar(s[i])
  {
    seq(|s|, i requires 0 <= i < |s| => UpperChar(s[i]))
  }

  function Lower(s: string): (r: string)
    ensures |r| == |s|
    ensures forall i | 0 <= i < |s| :: r[i] == LowerChar(s[i])
  {
    seq(|s|, i requires 0 <= i < |s| => LowerChar(s[i]))
  }

  /** Upper-casing and lower-casing a character agree on what letter it is. */
  lemma CaseOfCase(c: char)
    ensures LowerChar(UpperChar(c)) == LowerChar(c)
    ensures UpperChar(LowerChar(c)) == UpperChar(c)
    ensures UpperChar(UpperChar(c)) == UpperChar(c)
  {
  }

  lemma UpperIdempotent(s: string)
    ensures Upper(Upper(s)) == Upper(s)
  {
  }

  // ---------------------------------------------------------------------
  // Stripping (`str.strip()`, `String.prototype.trim`)
  // ---------------------------------------------------------------------

  function LStrip(s: string): (r: string)
    ensures |r| <= |s| && r == s[|s| - |r|..]
    ensures AllSpace(s[..|s| - |r|])
    ensures r == [] || !IsSpace(r[0])
  {
    if s != [] && IsSpace(s[0]) then
      var t := LStrip(s[1..]);
      assert s[1..][|s| - 1 - |t|..] == s[|s| - |t|..];
      assert forall i | 0 <= i < |s| - |t| :: s[i] == if i == 0 then s[0] else s[1..][i - 1];
      t
    else
      s
  }

  function RStrip(s: string): (r: string)
    ensures |r| <= |s| && r == s[..|r|]
    ensures AllSpace(s[|r|..])
    ensures r == [] || !IsSpace(r[|r| - 1])
  {
    if s != [] && IsSpace(s[|s| - 1]) then
      var t := RStrip(s[..|s| - 1]);
      assert s[..|s| - 1][..|t|] == s[..|t|];
      assert forall i | |t| <= i < |s| :: s[i] == if i == |s| - 1 then s[|s| - 1] else s[..|s| - 1][i];
      t
    else
      s
  }

  /** Removes leading and trailing whitespace (StripRemovesOnlyEdges). */
  function Strip(s: string): (r: string)
    ensures |r| <= |s|
    ensures r == [] || (!IsSpace(r[0]) && !IsSpace(r[|r| - 1]))
  {
    RStrip(LStrip(s))
  }

  /** The stripped text is a slice of the input with only whitespace around it. */
  lemma StripRemovesOnlyEdges(s: string)
    ensures exists a, b | 0 <= a <= b <= |s| :: Strip(s) == s[a..b] && AllSpace(s[..a]) && AllSpace(s[b..])
  {
    var l := LStrip(s);
    var r := RStrip(l);
    var a := |s| - |l|;
    assert r == s[a..a + |r|] && AllSpace(s[..a]);
    assert s[a + |r|..] == l[|r|..];
  }

  /** The stripped text is empty exactly when the input is whitespace only. */
  lemma StripEmptyIff(s: string)
    ensures Strip(s) == [] <==> AllSpace(s)
  {
    var l := LStrip(s);
    assert s[..|s|] == s;
    if l != [] {
      assert s[|s| - |l|] == l[0];
      assert l[0..] == l;
    }
  }

  lemma StripIdempotent(s: string)
    ensures Strip(Strip(s)) == Strip(s)
  {
    var r := Strip(s);
    if r != [] {
      assert LStrip(r) == r;
      assert RStrip(r) == r;
    }
  }

  /** A string with no whitespace at either end is its own stripped form. */
  lemma StripUnchanged(s: string)
    requires s == [] || (!IsSpace(s[0]) && !IsSpace(s[|s| - 1]))
    ensures Strip(s) == s
  {
  }

  // ---------------------------------------------------------------------
  // Splitting
  // ---------------------------------------------------------------------

  /** Length of the run of non-whitespace characters that starts `s`. */
  function SpanNonSpace(s: string): (n: nat)
    ensures n <= |s|
    ensures NoSpace(s[..n])
    ensures n == |s| || IsSpace(s[n])
  {
    if s == [] || IsSpace(s[0]) then 0 else 1 + SpanNonSpace(s[1..])
  }

  /** Python's `str.split()` with no separator: the maximal runs of non-whitespace. */
  function Words(s: string): (ws: seq<string>)
    ensures forall k | 0 <= k < |ws| :: ws[k] != [] && NoSpace(ws[k])
    decreases |s|
  {
    var t := LStrip(s);
    if t == [] then []
    else
      var n := SpanNonSpace(t);
      [t[..n]] + Words(t[n..])
  }

  /** A word followed by a blank or by nothing is the first word. */
  lemma WordsCons(w: string, rest: string)
    requires w != [] && NoSpace(w) && (rest == [] || IsSpace(rest[0]))
    ensures Words(w + rest) == [w] + Words(rest)
  {
    var s := w + rest;
    assert LStrip(s) == s by { assert !IsSpace(s[0]); }
    SpanOfWord(w, rest);
    assert s[..|w|] == w && s[|w|..] == rest;
  }

  lemma {:induction false} SpanOfWord(w: string, rest: string)
    requires NoSpace(w) && (rest == [] || IsSpace(rest[0]))
    ensures SpanNonSpace(w + rest) == |w|
  {
    if w != [] {
      assert (w + rest)[1..] == w[1..] + rest;
      SpanOfWord(w[1..], rest);
    } else {
      assert w + rest == rest;
    }
  }

  /** Leading blanks do not change the words. */
  lemma WordsSkipSpace(c: char, s: string)
    requires IsSpace(c)
    ensures Words([c] + s) == Words(s)
  {
    assert ([c] + s)[1..] == s;
  }

  /** The characters of `s` that are not whitespace, in order. */
  function NonSpaceChars(s: string): string
  {
    if s == [] then []
    else if IsSpace(s[0]) then NonSpaceChars(s[1..])
    else [s[0]] + NonSpaceChars(s[1..])
  }

  function Concat(ws: seq<string>): string
  {
    if ws == [] then [] else ws[0] + Concat(ws[1..])
  }

  lemma {:induction false} NonSpaceCharsAppend(a: string, b: string)
    ensures NonSpaceChars(a + b) == NonSpaceChars(a) + NonSpaceChars(b)
  {
    if a == [] {
      assert a + b == b;
    } else {
      assert (a + b)[0] == a[0];
      assert (a + b)[1..] == a[1..] + b;
      NonSpaceCharsAppend(a[1..], b);
      if !IsSpace(a[0]) {
        assert NonSpaceChars(a + b) == [a[0]] + (NonSpaceChars(a[1..]) + NonSpaceChars(b));
      }
    }
  }

  lemma {:induction false} NonSpaceCharsOfSpaces(s: string)
    requires AllSpace(s)
    ensures NonSpaceChars(s) == []
  {
    if s != [] {
      NonSpaceCharsOfSpaces(s[1..]);
    }
  }

  lemma {:induction false} NonSpaceCharsOfWord(s: string)
    requires NoSpace(s)
    ensures NonSpaceChars(s) == s
  {
    if s != [] {
      NonSpaceCharsOfWord(s[1..]);
    }
  }

  /** A word at the front of `t` contributes exactly its own characters. */
  lemma NonSpaceCharsOfWordThenRest(t: string, n: nat)
    requires n <= |t| && NoSpace(t[..n])
    ensures NonSpaceChars(t) == t[..n] + NonSpaceChars(t[n..])
  {
    assert t == t[..n] + t[n..];
    NonSpaceCharsAppend(t[..n], t[n..]);
    NonSpaceCharsOfWord(t[..n]);
  }

  /** Leading whitespace contributes nothing. */
  lemma NonSpaceCharsOfLStrip(s: string)
    ensures NonSpaceChars(s) == NonSpaceChars(LStrip(s))
  {
    var t := LStrip(s);
    var lead := s[..|s| - |t|];
    assert s == lead + t;
    NonSpaceCharsAppend(lead, t);
    NonSpaceCharsOfSpaces(lead);
  }

  /**
   * Splitting loses only whitespace: the words, written one after the other,
   * are the non-whitespace characters of the input in their original order.
   */
  lemma {:induction false} WordsKeepAllText(s: string)
    ensures Concat(Words(s)) == NonSpaceChars(s)
    decreases |s|
  {
    var t := LStrip(s);
    NonSpaceCharsOfLStrip(s);
    if t != [] {
      var n := SpanNonSpace(t);
      NonSpaceCharsOfWordThenRest(t, n);
      WordsKeepAllText(t[n..]);
      var ws := Words(s);
      assert ws[0] == t[..n];
      assert ws[1..] == Words(t[n..]);
    }
  }

  /** Python's `str.split(sep)` for a one-character separator. */
  function SplitOn(s: string, sep: char): (parts: seq<string>)
    ensures |parts| >= 1
    ensures forall k | 0 <= k < |parts| :: sep !in parts[k]
  {
    if s == [] then [[]]
    else
      var rest := SplitOn(s[1..], sep);
      if s[0] == sep then [[]] + rest
      else [[s[0]] + rest[0]] + rest[1..]
  }

  /** Python's `sep.join(parts)` for a one-character separator. */
  function JoinWith(parts: seq<string>, sep: char): string
  {
    if parts == [] then []
    else if |parts| == 1 then parts[0]
    else parts[0] + [sep] + JoinWith(parts[1..], sep)
  }

  lemma JoinWithConsHead(x: string, parts: seq<string>, sep: char)
    requires parts != []
    ensures JoinWith([x + parts[0]] + parts[1..], sep) == x + JoinWith(parts, sep)
  {
    var p := [x + parts[0]] + parts[1..];
    assert p[1..] == parts[1..];
  }

  /** Joining the pieces of a split with the same separator gives back the input. */
  lemma {:induction false} SplitJoinRoundTrip(s: string, sep: char)
    ensures JoinWith(SplitOn(s, sep), sep) == s
  {
    if s != [] {
      var rest := SplitOn(s[1..], sep);
      SplitJoinRoundTrip(s[1..], sep);
      if s[0] == sep {
        var p := [[]] + rest;
        assert p[1..] == rest;
        assert JoinWith(p, sep) == [] + [sep] + JoinWith(rest, sep);
        assert s == [sep] + s[1..];
      } else {
        JoinWithConsHead([s[0]], rest, sep);
        assert s == [s[0]] + s[1..];
      }
    }
  }

  // ---------------------------------------------------------------------
  // Title-casing
  // ---------------------------------------------------------------------

  /** Python's `str.replace(a, b)` / JavaScript's `replace(/a/g, b)` for single characters. */
  function ReplaceChar(s: string, a: char, b: char): (r: string)
    ensures |r| == |s|
    ensures a != b ==> a !in r
  {
    seq(|s|, i requires 0 <= i < |s| => if s[i] == a then b else s[i])
  }

  function PyTitleAt(s: string, i: nat): char
    requires i < |s|
  {
    if !IsLetter(s[i]) then s[i]
    else if i > 0 && IsLetter(s[i - 1]) then LowerChar(s[i])
    else UpperChar(s[i])
  }

  /**
   * Python's `str.title()` over ASCII letters: a letter that follows a
   * letter is lower-cased, any other letter is upper-cased; everything
   * else, non-ASCII letters included, is kept and does not count as cased.
   */
  function PyTitle(s: string): (r: string)
    ensures |r| == |s|
  {
    seq(|s|, i requires 0 <= i < |s| => PyTitleAt(s, i))
  }

  /** Title-casing changes the case of letters and nothing else. */
  lemma PyTitleKeepsLetters(s: string)
    ensures Lower(PyTitle(s)) == Lower(s)
  {
    var r := PyTitle(s);
    forall i | 0 <= i < |s| ensures LowerChar(r[i]) == LowerChar(s[i]) {
      CaseOfCase(s[i]);
    }
  }

  /** Title-casing a title-cased string changes nothing. */
  lemma PyTitleIdempotent(s: string)
    ensures PyTitle(PyTitle(s)) == PyTitle(s)
  {
    var r := PyTitle(s);
    forall i | 0 <= i < |s| ensures PyTitleAt(r, i) == r[i] {
      CaseOfCase(s[i]);
      assert IsLetter(r[i]) <==> IsLetter(s[i]);
      if i > 0 {
        assert IsLetter(r[i - 1]) <==> IsLetter(s[i - 1]);
      }
    }
  }

  predicate JsWordStart(s: string, i: nat)
    requires i < |s|
  {
    IsWordChar(s[i]) && (i == 0 || !IsWordChar(s[i - 1]))
  }

  /** JavaScript's `s.replace(/\b\w/g, l => l.toUpperCase())`. */
  function JsCapitalizeWords(s: string): (r: string)
    ensures |r| == |s|
  {
    seq(|s|, i requires 0 <= i < |s| => if JsWordStart(s, i) then UpperChar(s[i]) else s[i])
  }

  /**
   * Unlike Python's `title()`, the JavaScript form only raises the first
   * character of each word: every other character, and the text read
   * case-insensitively, are untouched, and every word start is upper case.
   */
  lemma JsCapitalizeWordsSpec(s: string)
    ensures Lower(JsCapitalizeWords(s)) == Lower(s)
    ensures forall i | 0 <= i < |s| && !JsWordStart(s, i) :: JsCapitalizeWords(s)[i] == s[i]
    ensures forall i | 0 <= i < |s| && JsWordStart(s, i) :: !IsLowerLetter(JsCapitalizeWords(s)[i])
    ensures JsCapitalizeWords(JsCapitalizeWords(s)) == JsCapitalizeWords(s)
  {
    var r := JsCapitalizeWords(s);
    forall i | 0 <= i < |s| ensures LowerChar(r[i]) == LowerChar(s[i]) {
      CaseOfCase(s[i]);
    }
    forall i | 0 <= i < |s|
      ensures JsWordStart(r, i) == JsWordStart(s, i)
      ensures JsCapitalizeWords(r)[i] == r[i]
    {
      CaseOfCase(s[i]);
    }
  }

  // ---------------------------------------------------------------------
  // Integers: Python's `int(text)` and `str(n)`
  // ---------------------------------------------------------------------

  predicate AllDigits(s: string)
  {
    forall i | 0 <= i < |s| :: IsDigit(s[i])
  }

  function DigitsValue(d: string): nat
    requires AllDigits(d)
  {
    if d == [] then 0 else DigitsValue(d[..|d| - 1]) * 10 + (d[|d| - 1] as int - '0' as int)
  }

  /**
   * Python's `int(text)` on a string, restricted to ASCII: surrounding
   * whitespace, an optional sign and at least one decimal digit give a
   * number; `None` stands for the `ValueError`. Underscores between digits
   * and non-ASCII digits, which Python also accepts, give `None` here.
   */
  function ParseInt(s: string): (r: Option<int>)
    ensures r.Some? ==> Strip(s) != []
  {
    var t := Strip(s);
    if t == [] then None
    else if t[0] == '-' || t[0] == '+' then
      if |t| > 1 && AllDigits(t[1..]) then
        var v: int := DigitsValue(t[1..]);
        Some(if t[0] == '-' then -v else v)
      else None
    else if AllDigits(t) then Some(DigitsValue(t))
    else None
  }

  function DigitChar(d: nat): (c: char)
    requires d < 10
    ensures IsDigit(c) && c as int - '0' as int == d
  {
    ('0' as int + d) as char
  }

  /** Python's `str(n)` for a natural number. */
  function NatText(n: nat): (s: string)
    ensures s != [] && AllDigits(s)
  {
    if n < 10 then [DigitChar(n)] else NatText(n / 10) + [DigitChar(n % 10)]
  }

  /** Python's `str(n)`. */
  function IntText(n: int): string
  {
    if n < 0 then ['-'] + NatText(-n) else NatText(n)
  }

  lemma {:induction false} NatTextValue(n: nat)
    ensures DigitsValue(NatText(n)) == n
  {
    if n >= 10 {
      var s := NatText(n);
      NatTextValue(n / 10);
      assert s[..|s| - 1] == NatText(n / 10);
    }
  }

  /** Parsing the decimal text of a number gives the number back. */
  lemma ParseIntText(n: int)
    ensures ParseInt(IntText(n)) == Some(n)
  {
    var s := IntText(n);
    var m := if n < 0 then -n else n;
    NatTextValue(m);
    StripUnchanged(s);
    if n < 0 {
      assert s[1..] == NatText(m);
    }
  }

  /** Python's `str(v)` of a JSON scalar. */
  function PyStr(v: Json): string
  {
    match v
    case JNull => "None"
    case JBool(b) => if b then "True" else "False"
    case JInt(i) => IntText(i)
    case JText(t) => t
  }

  /** Python's `int(v)` on a JSON scalar (`None` when it raises). */
  function PyInt(v: Json): (r: Option<int>)
    ensures v.JInt? ==> r == Some(v.i)
    ensures v.JNull? ==> r.None?
  {
    match v
    case JNull => None
    case JBool(b) => Some(if b then 1 else 0)
    case JInt(i) => Some(i)
    case JText(s) => ParseInt(s)
  }
}
