/** The string primitives the search core relies on: Python's `str.strip()`,
    `str.lower()`, `in` on strings, `str.endswith`, `int()` on a digit string,
    the regular-expression classes `\w` and `\d`, and the ordering `<` that
    `sorted` applies to string keys. */
module Text {

  /** The characters Python's `str.isspace()` accepts, which `str.strip()`
      removes from both ends of a string. */
  predicate IsSpace(c: char) {
    c == ' ' || ('\t' <= c <= '\r') || ('\U{1c}' <= c <= '\U{1f}')
    || c == '\U{85}' || c == '\U{a0}' || c == '\U{1680}'
    || ('\U{2000}' <= c <= '\U{200a}') || c == '\U{2028}' || c == '\U{2029}'
    || c == '\U{202f}' || c == '\U{205f}' || c == '\U{3000}'
  }

  /** The regular-expression class `\w`, restricted to ASCII. */
  predicate IsWordChar(c: char) {
    ('a' <= c <= 'z') || ('A' <= c <= 'Z') || ('0' <= c <= '9') || c == '_'
  }

  /** The regular-expression class `\d`, restricted to ASCII. */
  predicate IsDigit(c: char) {
    '0' <= c <= '9'
  }

  /** A string `int()` accepts when it holds nothing but digits. */
  predicate IsNumeral(s: string) {
    |s| > 0 && forall i :: 0 <= i < |s| ==> IsDigit(s[i])
  }

  /** `int(s)` for a string of decimal digits. */
  function NumeralValue(s: string): nat
    requires IsNumeral(s)
    decreases |s|
  {
    var d := (s[|s| - 1] as int) - ('0' as int);
    if |s| == 1 then d else NumeralValue(s[..|s| - 1]) * 10 + d
  }

  /** `str.lower()`, restricted to ASCII letters. */
  function LowerChar(c: char): char {
    if 'A' <= c <= 'Z' then (c as int + 32) as char else c
  }

  function Lower(s: string): string {
    seq(|s|, i requires 0 <= i < |s| => LowerChar(s[i]))
  }

  /** `sub` occurs in `s` starting at index `i`. */
  predicate OccursAt(s: string, sub: string, i: nat) {
    i + |sub| <= |s| && s[i..i + |sub|] == sub
  }

  /** The literal `lit` occurs in `s` at index `i`, compared character by character. */
  predicate LiteralAt(s: string, i: nat, lit: string)
    decreases |lit|
  {
    lit == [] || (i < |s| && s[i] == lit[0] && LiteralAt(s, i + 1, lit[1..]))
  }

  lemma {:induction false} LiteralAtFromChars(s: string, i: nat, lit: string)
    requires i + |lit| <= |s|
    requires forall k :: 0 <= k < |lit| ==> s[i + k] == lit[k]
    ensures LiteralAt(s, i, lit)
    decreases |lit|
  {
    if lit != [] {
      LiteralAtFromChars(s, i + 1, lit[1..]);
    }
  }

  /** Whether a literal occurs at a position does not depend on the text
      before that position. */
  lemma {:induction false} LiteralAtShift(p: string, s: string, i: nat, lit: string)
    ensures LiteralAt(p + s, |p| + i, lit) == LiteralAt(s, i, lit)
    decreases |lit|
  {
    if lit != [] {
      LiteralAtShift(p, s, i + 1, lit[1..]);
      if i < |s| {
        assert (p + s)[|p| + i] == s[i];
      }
    }
  }

  /** Dropping a prefix of the left operand of a concatenation. */
  lemma DropFromConcat(a: string, b: string, n: nat)
    requires n <= |a|
    ensures (a + b)[n..] == a[n..] + b
  {
  }

  /** `sub in s`: `sub` occurs somewhere in `s` (the empty string is in every string). */
  predicate Contains(s: string, sub: string) {
    exists i: nat :: i <= |s| && OccursAt(s, sub, i)
  }

  /** `s.endswith(suffix)`. */
  predicate EndsWith(s: string, suffix: string) {
    |suffix| <= |s| && s[|s| - |suffix|..] == suffix
  }

  /** The first index at or after `i` that is not whitespace (or `|s|`). */
  function SkipSpace(s: string, i: nat): (k: nat)
    requires i <= |s|
    ensures i <= k <= |s|
    ensures forall j :: i <= j < k ==> IsSpace(s[j])
    ensures k == |s| || !IsSpace(s[k])
    decreases |s| - i
  {
    if i < |s| && IsSpace(s[i]) then SkipSpace(s, i + 1) else i
  }

  /** Moving left from `j` but not past `lo`, the start of the whitespace run ending at `j`. */
  function SkipSpaceBack(s: string, lo: nat, j: nat): (k: nat)
    requires lo <= j <= |s|
    ensures lo <= k <= j
    ensures forall m :: k <= m < j ==> IsSpace(s[m])
    ensures k == lo || !IsSpace(s[k - 1])
    decreases j
  {
    if lo < j && IsSpace(s[j - 1]) then SkipSpaceBack(s, lo, j - 1) else j
  }

  /** `s.strip()`: `s` without the whitespace at either end, and only that. */
  function Strip(s: string): (r: string)
    ensures exists a, b ::
              && 0 <= a <= b <= |s| && r == s[a..b]
              && (forall i :: 0 <= i < a ==> IsSpace(s[i]))
              && (forall i :: b <= i < |s| ==> IsSpace(s[i]))
    ensures r == [] || (!IsSpace(r[0]) && !IsSpace(r[|r| - 1]))
    ensures (s == [] || (!IsSpace(s[0]) && !IsSpace(s[|s| - 1]))) ==> r == s
  {
    var a := SkipSpace(s, 0);
    s[a..SkipSpaceBack(s, a, |s|)]
  }

  lemma WordCharIsNotSpace(c: char)
    requires IsWordChar(c)
    ensures !IsSpace(c)
  {
  }

  /** Stripping drops the leading whitespace of text that is otherwise
      trimmed. */
  lemma StripLeadingSpace(s: string, k: nat)
    requires k < |s|
    requires forall j :: 0 <= j < k ==> IsSpace(s[j])
    requires !IsSpace(s[k]) && !IsSpace(s[|s| - 1])
    ensures Strip(s) == s[k..]
  {
    assert SkipSpace(s, 0) == k;
  }

  /** A space in front of a word-delimited text is stripped away. */
  lemma StripSpaceBeforeWord(k: string)
    requires k != [] && IsWordChar(k[0]) && IsWordChar(k[|k| - 1])
    ensures Strip(" " + k) == k
  {
    var r := " " + k;
    assert r[1] == k[0] && r[|r| - 1] == k[|k| - 1] && r[1..] == k;
    WordCharIsNotSpace(k[0]);
    WordCharIsNotSpace(k[|k| - 1]);
    StripLeadingSpace(r, 1);
  }

  /** Python's `<` on strings: lexicographic by code point, a proper prefix first. */
  predicate LexLess(s: string, t: string)
    decreases |s|
  {
    if t == [] then false
    else if s == [] then true
    else if s[0] != t[0] then s[0] < t[0]
    else LexLess(s[1..], t[1..])
  }

  lemma {:induction false} LexLessIrreflexive(s: string)
    ensures !LexLess(s, s)
    decreases |s|
  {
    if s != [] {
      LexLessIrreflexive(s[1..]);
    }
  }

  lemma {:induction false} LexLessTransitive(a: string, b: string, c: string)
    requires LexLess(a, b) && LexLess(b, c)
    ensures LexLess(a, c)
    decreases |a|
  {
    if a != [] && a[0] == b[0] && b[0] == c[0] {
      LexLessTransitive(a[1..], b[1..], c[1..]);
    }
  }

  lemma {:induction false} LexLessTotal(a: string, b: string)
    ensures a == b || LexLess(a, b) || LexLess(b, a)
    decreases |a|
  {
    if a != [] && b != [] && a[0] == b[0] {
      LexLessTotal(a[1..], b[1..]);
      if a[1..] == b[1..] {
        assert a == [a[0]] + a[1..] && b == [b[0]] + b[1..];
      }
    }
  }
}
