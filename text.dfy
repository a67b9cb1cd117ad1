/**
 Character-level pieces of Python's string handling that the extraction
 rules rely on: the whitespace of `str.split()` and of `int()`, the first
 whitespace-delimited token (`s.split()[0]`), and `int()` on an ASCII
 decimal literal with an optional sign, with its inverse, the decimal
 rendering of an integer.
 */
module Text {
  import opened Records

  /** Python's whitespace (`str.isspace`), which `str.split()` skips. */
  predicate IsSpace(c: char)
  {
    ('\U{9}' <= c <= '\U{D}') || ('\U{1C}' <= c <= ' ') ||
    c == '\U{85}' || c == '\U{A0}' || c == '\U{1680}' ||
    ('\U{2000}' <= c <= '\U{200A}') || c == '\U{2028}' || c == '\U{2029}' ||
    c == '\U{202F}' || c == '\U{205F}' || c == '\U{3000}'
  }

  /**
   The whitespace `int()` ignores around a literal: Python's whitespace
   except the ASCII separators U+001C..U+001F, which `int()` reads as part
   of the literal (and so rejects).
   */
  predicate IsIntSpace(c: char)
  {
    IsSpace(c) && !('\U{1C}' <= c <= '\U{1F}')
  }

  /** An ASCII decimal digit (the model's reading of regex `\d` and of int()). */
  predicate IsDigit(c: char) { '0' <= c <= '9' }

  predicate IsUpper(c: char) { 'A' <= c <= 'Z' }

  predicate AllDigits(s: seq<char>) { forall i :: 0 <= i < |s| ==> IsDigit(s[i]) }

  predicate AllSpace(s: seq<char>) { forall i :: 0 <= i < |s| ==> IsSpace(s[i]) }

  predicate NoSpace(s: seq<char>) { forall i :: 0 <= i < |s| ==> !IsSpace(s[i]) }

  predicate AllIntSpace(s: seq<char>) { forall i :: 0 <= i < |s| ==> IsIntSpace(s[i]) }

  /** The value of a run of decimal digits, most significant first. */
  function DigitsValue(s: seq<char>): nat
    requires AllDigits(s)
  {
    if s == [] then 0
    else DigitsValue(s[..|s| - 1]) * 10 + (s[|s| - 1] as int - '0' as int)
  }

  /** The shortest decimal rendering of a natural number (no leading zeros). */
  function ShowNat(n: nat): (s: string)
    ensures |s| > 0 && AllDigits(s)
    ensures |s| > 1 ==> s[0] != '0'
  {
    if n < 10 then ['0' + n as char]
    else ShowNat(n / 10) + ['0' + (n % 10) as char]
  }

  /** Python's `str(n)` for an int. */
  function ShowInt(n: int): (s: string)
    ensures |s| > 0 && NoSpace(s)
  {
    if n < 0 then "-" + ShowNat(-n) else ShowNat(n)
  }

  /** The index of the first non-whitespace character at or after `i`, or `|s|`. */
  function SpaceEnd(s: seq<char>, i: nat): (j: nat)
    requires i <= |s|
    ensures i <= j <= |s| && AllSpace(s[i..j])
    ensures j < |s| ==> !IsSpace(s[j])
    decreases |s| - i
  {
    if i < |s| && IsSpace(s[i]) then SpaceEnd(s, i + 1) else i
  }

  /** The index of the first whitespace character at or after `i`, or `|s|`. */
  function WordEnd(s: seq<char>, i: nat): (j: nat)
    requires i <= |s|
    ensures i <= j <= |s| && NoSpace(s[i..j])
    ensures j < |s| ==> IsSpace(s[j])
    decreases |s| - i
  {
    if i < |s| && !IsSpace(s[i]) then WordEnd(s, i + 1) else i
  }

  /** The index of the first character at or after `i` that `int()` does not skip, or `|s|`. */
  function IntSpaceEnd(s: seq<char>, i: nat): (j: nat)
    requires i <= |s|
    ensures i <= j <= |s| && AllIntSpace(s[i..j])
    ensures j < |s| ==> !IsIntSpace(s[j])
    decreases |s| - i
  {
    if i < |s| && IsIntSpace(s[i]) then IntSpaceEnd(s, i + 1) else i
  }

  /** The end of `s[i..j]` once the trailing whitespace `int()` skips is dropped. */
  function TrimEnd(s: seq<char>, i: nat, j: nat): (k: nat)
    requires i <= j <= |s|
    ensures i <= k <= j && forall m :: k <= m < j ==> IsIntSpace(s[m])
    ensures k > i ==> !IsIntSpace(s[k - 1])
    decreases j - i
  {
    if i < j && IsIntSpace(s[j - 1]) then TrimEnd(s, i, j - 1) else j
  }

  /** The literal `int()` reads: `s` without the surrounding whitespace it skips. */
  function Strip(s: seq<char>): seq<char>
  {
    var i := IntSpaceEnd(s, 0);
    s[i..TrimEnd(s, i, |s|)]
  }

  /** `s.split()[0]`, or None where `split()` returns an empty list. */
  function FirstToken(s: seq<char>): Option<seq<char>>
  {
    var i := SpaceEnd(s, 0);
    if i == |s| then None else Some(s[i..WordEnd(s, i)])
  }

  /**
   `int(t)` on a string already stripped of whitespace: an optional `+` or
   `-` followed by one or more ASCII digits (leading zeros allowed, as int()
   allows them); anything else raises ValueError.
   */
  function ParseIntLiteral(t: seq<char>): (r: Result<int>)
    ensures r.Failure? ==> r.error == ValueError
  {
    if |t| > 1 && (t[0] == '+' || t[0] == '-') && AllDigits(t[1..]) then
      Success(if t[0] == '-' then -(DigitsValue(t[1..]) as int) else DigitsValue(t[1..]))
    else if |t| > 0 && AllDigits(t) then Success(DigitsValue(t))
    else Failure(ValueError)
  }

  /** Python's `int(s)` for a str: surrounding whitespace (`IsIntSpace`) is ignored. */
  function PyInt(s: seq<char>): Result<int>
  {
    ParseIntLiteral(Strip(s))
  }

  lemma {:induction false} DigitsValueShowNat(n: nat)
    ensures DigitsValue(ShowNat(n)) == n
  {
    if n >= 10 {
      var s := ShowNat(n);
      assert s[..|s| - 1] == ShowNat(n / 10);
      DigitsValueShowNat(n / 10);
    }
  }

  /** A string without whitespace is its own strip. */
  lemma StripWord(w: seq<char>)
    requires NoSpace(w)
    ensures Strip(w) == w
  {
    if w != [] {
      assert !IsIntSpace(w[0]);
      assert !IsIntSpace(w[|w| - 1]);
    }
  }

  lemma {:induction false} IntSpaceEndAt(s: seq<char>, i: nat, j: nat)
    requires i <= j <= |s|
    requires forall k :: i <= k < j ==> IsIntSpace(s[k])
    requires j < |s| ==> !IsIntSpace(s[j])
    ensures IntSpaceEnd(s, i) == j
    decreases j - i
  {
    if i < j {
      IntSpaceEndAt(s, i + 1, j);
    }
  }

  lemma {:induction false} TrimEndAt(s: seq<char>, i: nat, k: nat, j: nat)
    requires i <= k <= j <= |s|
    requires forall m :: k <= m < j ==> IsIntSpace(s[m])
    requires k > i ==> !IsIntSpace(s[k - 1])
    ensures TrimEnd(s, i, j) == k
    decreases j - k
  {
    if k < j {
      TrimEndAt(s, i, k, j - 1);
    }
  }

  /**
   `int()` ignores the whitespace it skips on both sides of a word: the
   result is that of the word alone.
   */
  lemma PyIntStripped(before: seq<char>, w: seq<char>, after: seq<char>)
    requires AllIntSpace(before) && AllIntSpace(after)
    requires w != [] && !IsIntSpace(w[0]) && !IsIntSpace(w[|w| - 1])
    ensures PyInt(before + w + after) == ParseIntLiteral(w)
  {
    var s := before + w + after;
    var i, k := |before|, |before| + |w|;
    IntSpaceEndAt(s, 0, i);
    TrimEndAt(s, i, k, |s|);
    assert s[i..k] == w;
  }

  /**
   The ASCII separators U+001C..U+001F are skipped by `str.split()` but not
   by `int()`: a number led by one is no literal.
   */
  lemma PyIntKeepsSeparator(c: char, d: seq<char>)
    requires '\U{1C}' <= c <= '\U{1F}' && d != [] && AllDigits(d)
    ensures IsSpace(c)
    ensures PyInt([c] + d) == Failure(ValueError)
  {
    var t := [c] + d;
    IntSpaceEndAt(t, 0, 0);
    TrimEndAt(t, 0, |t|, |t|);
    assert Strip(t) == t;
    assert !IsDigit(t[0]);
  }

  /** int(str(n)) == n. */
  lemma ParseShowInt(n: int)
    ensures ParseIntLiteral(ShowInt(n)) == Success(n)
    ensures PyInt(ShowInt(n)) == Success(n)
  {
    var s := ShowInt(n);
    DigitsValueShowNat(if n < 0 then -n else n);
    if n < 0 {
      assert s[1..] == ShowNat(-n);
    }
    StripWord(s);
  }

  /** A run of digits is an integer literal whose value is its digits' value. */
  lemma PyIntOfDigits(d: seq<char>)
    requires d != [] && AllDigits(d)
    ensures PyInt(d) == Success(DigitsValue(d))
  {
    StripWord(d);
  }

  /** A string with no non-space character has no first token, and conversely. */
  lemma FirstTokenNone(s: seq<char>)
    ensures FirstToken(s).None? <==> AllSpace(s)
  {
    var i := SpaceEnd(s, 0);
    assert s[0..i] == s[..i];
    if i == |s| {
      assert s[..i] == s;
    }
  }

  /**
   The first token of whitespace, then a word, then nothing or a whitespace
   character and anything at all, is that word: what follows it is ignored.
   */
  lemma FirstTokenOf(ws: seq<char>, word: seq<char>, rest: seq<char>)
    requires AllSpace(ws) && word != [] && NoSpace(word)
    requires rest == [] || IsSpace(rest[0])
    ensures FirstToken(ws + word + rest) == Some(word)
  {
    var s := ws + word + rest;
    SpaceEndAt(s, 0, |ws|);
    WordEndAt(s, |ws|, |ws| + |word|);
    assert s[|ws|..|ws| + |word|] == word;
  }

  lemma {:induction false} SpaceEndAt(s: seq<char>, i: nat, j: nat)
    requires i <= j <= |s|
    requires forall k :: i <= k < j ==> IsSpace(s[k])
    requires j < |s| ==> !IsSpace(s[j])
    ensures SpaceEnd(s, i) == j
    decreases j - i
  {
    if i < j {
      SpaceEndAt(s, i + 1, j);
    }
  }

  lemma {:induction false} WordEndAt(s: seq<char>, i: nat, j: nat)
    requires i <= j <= |s|
    requires forall k :: i <= k < j ==> !IsSpace(s[k])
    requires j < |s| ==> IsSpace(s[j])
    ensures WordEnd(s, i) == j
    decreases j - i
  {
    if i < j {
      WordEndAt(s, i + 1, j);
    }
  }

  /**
   Conversely, a first token is found exactly as a word preceded by
   whitespace and followed by the end of the string or by whitespace.
   */
  lemma FirstTokenSplits(s: seq<char>)
    requires FirstToken(s).Some?
    ensures var w := FirstToken(s).value;
      exists i :: 0 <= i && i + |w| <= |s| && AllSpace(s[..i]) && s[i..i + |w|] == w &&
        w != [] && NoSpace(w) && (i + |w| == |s| || IsSpace(s[i + |w|]))
  {
    var i := SpaceEnd(s, 0);
    assert s[0..i] == s[..i];
  }

  /** A word without whitespace is its own strip, so int() reads it as written. */
  lemma PyIntOfWord(w: seq<char>)
    requires NoSpace(w)
    ensures PyInt(w) == ParseIntLiteral(w)
  {
    StripWord(w);
  }
}
