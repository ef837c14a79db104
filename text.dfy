/**
 * The pieces of Python's string and regular-expression semantics that the
 * recommender relies on: `str.lower()`, the substring test `needle in hay`,
 * `int()` of a digit string, and `re.search(r'(\d+)\s*<keyword>', s, re.IGNORECASE)`.
 */
module Text {
  import opened Wrappers

  /** A character matched by `\d` (ASCII digits only in this model). */
  predicate IsDigit(c: char) {
    '0' <= c <= '9'
  }

  /** A character matched by `\s` in a Python 3 str pattern (CPython's Py_UNICODE_ISSPACE). */
  predicate IsSpace(c: char) {
    || ('\t' <= c <= '\r')
    || ('\U{1C}' <= c <= '\U{1F}')
    || c == ' '
    || c == '\U{85}'
    || c == '\U{A0}'
    || c == '\U{1680}'
    || ('\U{2000}' <= c <= '\U{200A}')
    || c == '\U{2028}'
    || c == '\U{2029}'
    || c == '\U{202F}'
    || c == '\U{205F}'
    || c == '\U{3000}'
  }

  predicate IsLowerLetter(c: char) {
    'a' <= c <= 'z'
  }

  /** `c.lower()` restricted to the ASCII letters. */
  function LowerChar(c: char): char {
    if 'A' <= c <= 'Z' then (c as int - 'A' as int + 'a' as int) as char else c
  }

  /** `s.lower()` restricted to the ASCII letters. */
  function Lower(s: string): (r: string)
    ensures |r| == |s|
  {
    seq(|s|, i requires 0 <= i < |s| => LowerChar(s[i]))
  }

  /** A lower-case letter is the lower case only of itself and its upper-case twin. */
  lemma LowerCharOfLetter(c: char, k: char)
    requires IsLowerLetter(k) && LowerChar(c) == k
    ensures !IsDigit(c) && !IsSpace(c)
    ensures c == k || c as int == k as int - 32
  {
  }

  // ---------------------------------------------------------------------------
  // Substring containment, Python's `needle in hay` on two str values

  predicate OccursAt(hay: string, needle: string, i: nat) {
    i + |needle| <= |hay| && hay[i..i + |needle|] == needle
  }

  /** `needle in hay`: true exactly when `needle` occurs at some position of `hay`. */
  function Contains(hay: string, needle: string): (b: bool)
    ensures b <==> exists i: nat :: OccursAt(hay, needle, i)
  {
    ContainsFrom(hay, needle, 0)
  }

  /** `needle` occurs in `hay` at position `i` or later. */
  function ContainsFrom(hay: string, needle: string, i: nat): (b: bool)
    ensures b <==> exists k: nat :: i <= k && OccursAt(hay, needle, k)
    decreases |hay| - i
  {
    if i + |needle| > |hay| then false
    else if hay[i..i + |needle|] == needle then assert OccursAt(hay, needle, i); true
    else ContainsFrom(hay, needle, i + 1)
  }

  /** `b` occurs in `a + b + c` right after `a`. */
  lemma OccursInMiddle(a: string, b: string, c: string)
    ensures OccursAt(a + b + c, b, |a|)
  {
    assert (a + b + c)[|a|..|a| + |b|] == b;
  }

  /** An occurrence of a longer word is an occurrence of each of its parts. */
  lemma ContainsTransitive(hay: string, word: string, part: string)
    requires Contains(hay, word) && Contains(word, part)
    ensures Contains(hay, part)
  {
    var i: nat :| OccursAt(hay, word, i);
    var j: nat :| OccursAt(word, part, j);
    forall m | i + j <= m < i + j + |part|
      ensures hay[m] == part[m - i - j]
    {
      assert hay[m] == word[m - i];
    }
    assert OccursAt(hay, part, i + j);
  }

  // ---------------------------------------------------------------------------
  // Runs of characters and the value of a digit string

  /** Length of the longest run of digits starting at position `i` (what greedy `\d+` consumes). */
  function DigitRunLen(s: string, i: nat): (n: nat)
    requires i <= |s|
    ensures i + n <= |s|
    ensures i + n == |s| || !IsDigit(s[i + n])
    decreases |s| - i
  {
    if i < |s| && IsDigit(s[i]) then 1 + DigitRunLen(s, i + 1) else 0
  }

  lemma {:induction false} DigitRunLenCovers(s: string, i: nat)
    requires i <= |s|
    ensures forall k :: i <= k < i + DigitRunLen(s, i) ==> IsDigit(s[k])
    decreases |s| - i
  {
    if i < |s| && IsDigit(s[i]) {
      DigitRunLenCovers(s, i + 1);
    }
  }

  /** Length of the longest run of whitespace starting at position `i` (what greedy `\s*` consumes). */
  function SpaceRunLen(s: string, i: nat): (n: nat)
    requires i <= |s|
    ensures i + n <= |s|
    ensures i + n == |s| || !IsSpace(s[i + n])
    decreases |s| - i
  {
    if i < |s| && IsSpace(s[i]) then 1 + SpaceRunLen(s, i + 1) else 0
  }

  lemma {:induction false} SpaceRunLenCovers(s: string, i: nat)
    requires i <= |s|
    ensures forall k :: i <= k < i + SpaceRunLen(s, i) ==> IsSpace(s[k])
    decreases |s| - i
  {
    if i < |s| && IsSpace(s[i]) {
      SpaceRunLenCovers(s, i + 1);
    }
  }

  predicate AllDigits(s: string) {
    forall k :: 0 <= k < |s| ==> IsDigit(s[k])
  }

  /** A non-empty string of ASCII digits: what `int()` and `pd.to_numeric` read as an integer here. */
  predicate IsDigitString(s: string) {
    |s| > 0 && AllDigits(s)
  }

  function DigitValue(c: char): nat
    requires IsDigit(c)
  {
    c as int - '0' as int
  }

  /** `int(d)` for a string of ASCII digits. */
  function DigitsValue(d: string): nat
    requires AllDigits(d)
  {
    if |d| == 0 then 0 else DigitsValue(d[..|d| - 1]) * 10 + DigitValue(d[|d| - 1])
  }

  /** `str(n)`: the decimal digits of `n`, without leading zeros. */
  function Digits(n: nat): (d: string)
    ensures AllDigits(d) && |d| > 0
    ensures |d| > 1 ==> d[0] != '0'
  {
    if n < 10 then [(n + '0' as int) as char] else Digits(n / 10) + [(n % 10 + '0' as int) as char]
  }

  /** `int(str(n)) == n`. */
  lemma {:induction false} DigitsValueOfDigits(n: nat)
    ensures DigitsValue(Digits(n)) == n
  {
    var d := Digits(n);
    if n >= 10 {
      DigitsValueOfDigits(n / 10);
      assert d[..|d| - 1] == Digits(n / 10);
    }
  }

  /** A digit string has value 0 exactly when it is made of zeros only ("0", "00", ...). */
  lemma {:induction false} DigitsValueZero(d: string)
    requires AllDigits(d)
    ensures DigitsValue(d) == 0 <==> forall k :: 0 <= k < |d| ==> d[k] == '0'
  {
    if |d| > 0 {
      var init := d[..|d| - 1];
      DigitsValueZero(init);
      assert forall k :: 0 <= k < |init| ==> init[k] == d[k];
    }
  }

  // ---------------------------------------------------------------------------
  // re.search(r'(\d+)\s*<keyword>', s, re.IGNORECASE)

  /** `s[i..]` begins with the lower-case `kw`, ignoring ASCII case. */
  predicate StartsWithIgnoreCase(s: string, i: nat, kw: string) {
    i + |kw| <= |s| && forall k :: 0 <= k < |kw| ==> LowerChar(s[i + k]) == kw[k]
  }

  /** A keyword the search can be run with: lower-case, beginning with a letter. */
  predicate IsKeyword(kw: string) {
    |kw| > 0 && IsLowerLetter(kw[0]) && forall k :: 0 <= k < |kw| ==> LowerChar(kw[k]) == kw[k]
  }

  /**
   * The pattern `\d+\s*kw` matches at `i` with `a` digits and `b` whitespace characters:
   * every way the pattern can match there, before the engine's preference picks one.
   */
  predicate PatternSplit(s: string, i: nat, a: nat, b: nat, kw: string) {
    && a >= 1
    && i + a + b <= |s|
    && (forall k :: i <= k < i + a ==> IsDigit(s[k]))
    && (forall k :: i + a <= k < i + a + b ==> IsSpace(s[k]))
    && StartsWithIgnoreCase(s, i + a + b, kw)
  }

  /** The match the engine reports at `i`: greedy `\d+`, then greedy `\s*`, then the keyword. */
  predicate MatchAt(s: string, i: nat, kw: string) {
    && i < |s|
    && IsDigit(s[i])
    && StartsWithIgnoreCase(s, i + DigitRunLen(s, i) + SpaceRunLen(s, i + DigitRunLen(s, i)), kw)
  }

  /** The pattern can match at `i` exactly when the greedy match exists, and then it is the only split. */
  lemma GreedySplitIsOnlySplit(s: string, i: nat, kw: string)
    requires IsKeyword(kw)
    ensures MatchAt(s, i, kw) <==> exists a, b :: PatternSplit(s, i, a, b, kw)
    ensures forall a, b :: PatternSplit(s, i, a, b, kw) ==>
      a == DigitRunLen(s, i) && b == SpaceRunLen(s, i + a)
  {
    if MatchAt(s, i, kw) {
      var a := DigitRunLen(s, i);
      var b := SpaceRunLen(s, i + a);
      DigitRunLenCovers(s, i);
      SpaceRunLenCovers(s, i + a);
      assert PatternSplit(s, i, a, b, kw);
    }
    forall a, b | PatternSplit(s, i, a, b, kw)
      ensures a == DigitRunLen(s, i) && b == SpaceRunLen(s, i + a)
    {
      SplitIsGreedy(s, i, a, b, kw);
    }
  }

  lemma SplitIsGreedy(s: string, i: nat, a: nat, b: nat, kw: string)
    requires IsKeyword(kw) && PatternSplit(s, i, a, b, kw)
    ensures a == DigitRunLen(s, i) && b == SpaceRunLen(s, i + a)
  {
    // the character after the spaces begins the keyword, so it is a letter
    LowerCharOfLetter(s[i + a + b], kw[0]);
    assert !IsDigit(s[i + a]) by {
      if b > 0 { assert IsSpace(s[i + a]); }
    }
    DigitRunExact(s, i, a);
    SpaceRunExact(s, i + a, b);
  }

  /** A run of `n` digits followed by the end or a non-digit is the longest run. */
  lemma {:induction false} DigitRunExact(s: string, i: nat, n: nat)
    requires i + n <= |s|
    requires forall k :: i <= k < i + n ==> IsDigit(s[k])
    requires i + n == |s| || !IsDigit(s[i + n])
    ensures DigitRunLen(s, i) == n
    decreases n
  {
    if n > 0 {
      DigitRunExact(s, i + 1, n - 1);
    }
  }

  /** A run of `n` whitespace characters followed by the end or a non-space is the longest run. */
  lemma {:induction false} SpaceRunExact(s: string, i: nat, n: nat)
    requires i + n <= |s|
    requires forall k :: i <= k < i + n ==> IsSpace(s[k])
    requires i + n == |s| || !IsSpace(s[i + n])
    ensures SpaceRunLen(s, i) == n
    decreases n
  {
    if n > 0 {
      SpaceRunExact(s, i + 1, n - 1);
    }
  }

  /** A match never starts in the middle of a digit run: the match one digit earlier also succeeds. */
  lemma MatchExtendsLeft(s: string, j: nat, kw: string)
    requires MatchAt(s, j, kw) && j > 0 && IsDigit(s[j - 1])
    ensures MatchAt(s, j - 1, kw)
  {
    assert DigitRunLen(s, j - 1) == 1 + DigitRunLen(s, j);
  }

  /** The leftmost position at or after `i` where the pattern matches. */
  function SearchFrom(s: string, i: nat, kw: string): (r: Option<nat>)
    ensures r.Some? ==> i <= r.value && MatchAt(s, r.value, kw)
    ensures r.Some? ==> forall k :: i <= k < r.value ==> !MatchAt(s, k, kw)
    ensures r.None? ==> forall k :: i <= k ==> !MatchAt(s, k, kw)
    decreases |s| - i
  {
    if i >= |s| then None
    else if MatchAt(s, i, kw) then Some(i)
    else SearchFrom(s, i + 1, kw)
  }

  /** `m.group(1)` of `re.search(r'(\d+)\s*kw', s, re.IGNORECASE)`, or None when there is no match. */
  function SearchNumberBefore(s: string, kw: string): (r: Option<string>)
    ensures r.Some? ==> IsDigitString(r.value)
  {
    match SearchFrom(s, 0, kw)
    case None => None
    case Some(j) =>
      DigitRunLenCovers(s, j);
      Some(s[j..j + DigitRunLen(s, j)])
  }

  /** The search fails exactly when nothing matches; otherwise it reports the digit run of the leftmost match. */
  lemma SearchNumberBeforeSpec(s: string, kw: string)
    ensures var r := SearchNumberBefore(s, kw);
      && (r.None? <==> forall k :: 0 <= k < |s| ==> !MatchAt(s, k, kw))
      && (r.Some? ==> exists j: nat :: FirstMatch(s, j, kw) && r.value == s[j..j + DigitRunLen(s, j)])
  {
    match SearchFrom(s, 0, kw)
    case None =>
    case Some(j) =>
      assert FirstMatch(s, j, kw);
  }

  /** `j` is the leftmost match position. */
  predicate FirstMatch(s: string, j: nat, kw: string) {
    MatchAt(s, j, kw) && forall k :: 0 <= k < j ==> !MatchAt(s, k, kw)
  }

  /** There is only one leftmost match. */
  lemma FirstMatchUnique(s: string, j: nat, j': nat, kw: string)
    requires FirstMatch(s, j, kw) && FirstMatch(s, j', kw)
    ensures j == j'
  {
  }

  /**
   * The group the search reports is the first maximal digit run of `s` that is followed by
   * optional whitespace and the keyword: it is preceded by a non-digit (or the start of `s`),
   * it ends before a non-digit, and no earlier position matches.
   */
  lemma {:induction false} SearchFindsMaximalRun(s: string, kw: string)
    requires IsKeyword(kw)
    requires SearchNumberBefore(s, kw).Some?
    ensures var v := SearchNumberBefore(s, kw).value;
      exists j: nat :: && FirstMatch(s, j, kw)
                       && j + |v| <= |s|
                       && v == s[j..j + |v|]
                       && (j == 0 || !IsDigit(s[j - 1]))
                       && (j + |v| == |s| || !IsDigit(s[j + |v|]))
  {
    var j := SearchFrom(s, 0, kw).value;
    var n := DigitRunLen(s, j);
    assert SearchNumberBefore(s, kw).value == s[j..j + n];
    if j > 0 && IsDigit(s[j - 1]) {
      MatchExtendsLeft(s, j, kw);
      assert false;
    }
    assert FirstMatch(s, j, kw);
    assert j + n == |s| || !IsDigit(s[j + n]);
  }
}
