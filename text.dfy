/**
 * String helpers shared by every core file: JavaScript's `\s` class,
 * `toLowerCase`, `trim`, `includes`, and the separator-stripping
 * normalisation `s.toLowerCase().replace(/[\s._-]+/g, '')`.
 */
module Text {

  /** The characters JavaScript's `\s` (and `String.prototype.trim`) treat as white space. */
  predicate IsWhitespace(c: char)
  {
    c == '\t' || c == '\n' || c == '\U{0B}' || c == '\U{0C}' || c == '\r' || c == ' ' ||
    c == '\U{A0}' || c == '\U{1680}' || ('\U{2000}' <= c <= '\U{200A}') ||
    c == '\U{2028}' || c == '\U{2029}' || c == '\U{202F}' || c == '\U{205F}' ||
    c == '\U{3000}' || c == '\U{FEFF}'
  }

  /** The class `[\s._-]` removed by the normaliser. */
  predicate IsSeparator(c: char)
  {
    IsWhitespace(c) || c == '.' || c == '_' || c == '-'
  }

  predicate IsAsciiUpper(c: char) { 'A' <= c <= 'Z' }
  predicate IsAsciiLower(c: char) { 'a' <= c <= 'z' }
  predicate IsAsciiLetter(c: char) { IsAsciiUpper(c) || IsAsciiLower(c) }
  predicate IsAsciiDigit(c: char) { '0' <= c <= '9' }

  /** Upper-case letters whose lower-case form is modelled: ASCII and Latin-1 (À..Þ without ×). */
  predicate IsUpper(c: char)
  {
    IsAsciiUpper(c) || ('\U{C0}' <= c <= '\U{DE}' && c != '\U{D7}')
  }

  function LowerChar(c: char): (d: char)
    ensures !IsUpper(d)
    ensures IsUpper(c) ==> d as int == c as int + 32
    ensures !IsUpper(c) ==> d == c
  {
    if IsUpper(c) then (c as int + 32) as char else c
  }

  /** `toLowerCase`, for the upper-case letters of ASCII and Latin-1. */
  function Lower(s: string): (r: string)
    ensures |r| == |s|
    ensures forall i :: 0 <= i < |s| ==> r[i] == LowerChar(s[i])
  {
    seq(|s|, i requires 0 <= i < |s| => LowerChar(s[i]))
  }

  /** `replace(/[\s._-]+/g, '')`: every separator character is dropped, the rest kept in order. */
  function StripSeparators(s: string): (r: string)
    ensures |r| <= |s|
    ensures forall c :: c in r ==> c in s && !IsSeparator(c)
  {
    if s == [] then []
    else if IsSeparator(s[0]) then StripSeparators(s[1..])
    else [s[0]] + StripSeparators(s[1..])
  }

  /** The normalised form used to compare queries with identifiers. */
  function Normalize(s: string): string
  {
    StripSeparators(Lower(s))
  }

  /** A string the normaliser leaves alone: no separator and no modelled upper-case letter. */
  predicate IsNormal(t: string)
  {
    forall c :: c in t ==> !IsSeparator(c) && !IsUpper(c)
  }

  lemma {:induction false} StripSeparatorsKeepsNormal(s: string)
    requires forall c :: c in s ==> !IsUpper(c)
    ensures IsNormal(StripSeparators(s))
  {
    if s != [] {
      assert forall c :: c in s[1..] ==> c in s;
      StripSeparatorsKeepsNormal(s[1..]);
    }
  }

  /** The normaliser's output contains no white space, `.`, `_`, `-` or upper-case letter. */
  lemma NormalizeIsNormal(s: string)
    ensures IsNormal(Normalize(s))
  {
    var l := Lower(s);
    forall c | c in l ensures !IsUpper(c) {
      var i :| 0 <= i < |l| && l[i] == c;
    }
    StripSeparatorsKeepsNormal(l);
  }

  lemma {:induction false} StripSeparatorsFixes(t: string)
    requires forall c :: c in t ==> !IsSeparator(c)
    ensures StripSeparators(t) == t
  {
    if t != [] {
      assert t[0] in t;
      assert forall c :: c in t[1..] ==> c in t;
      StripSeparatorsFixes(t[1..]);
    }
  }

  /** A normal string is its own normal form. */
  lemma NormalizeFixesNormal(t: string)
    requires IsNormal(t)
    ensures Normalize(t) == t
  {
    forall i | 0 <= i < |t| ensures !IsUpper(t[i]) { assert t[i] in t; }
    assert Lower(t) == t;
    StripSeparatorsFixes(t);
  }

  /** Normalising twice is normalising once. */
  lemma NormalizeIdempotent(s: string)
    ensures Normalize(Normalize(s)) == Normalize(s)
  {
    NormalizeIsNormal(s);
    NormalizeFixesNormal(Normalize(s));
  }

  function TrimStart(s: string): (r: string)
    ensures |r| <= |s| && r == s[|s| - |r|..]
    ensures r == [] || !IsWhitespace(r[0])
    ensures forall i :: 0 <= i < |s| - |r| ==> IsWhitespace(s[i])
  {
    if s != [] && IsWhitespace(s[0]) then TrimStart(s[1..]) else s
  }

  function TrimEnd(s: string): (r: string)
    ensures |r| <= |s| && r == s[..|r|]
    ensures r == [] || !IsWhitespace(r[|r| - 1])
    ensures forall i :: |r| <= i < |s| ==> IsWhitespace(s[i])
  {
    if s != [] && IsWhitespace(s[|s| - 1]) then TrimEnd(s[..|s| - 1]) else s
  }

  /** `trim()`: drop leading and trailing white space. */
  function Trim(s: string): string
  {
    TrimEnd(TrimStart(s))
  }

  /** A trimmed string is empty exactly when the input was all white space. */
  lemma TrimEmpty(s: string)
    ensures Trim(s) == [] <==> forall i :: 0 <= i < |s| ==> IsWhitespace(s[i])
  {
    var t := TrimStart(s);
    if Trim(s) == [] {
      assert t == [];
    }
  }

  lemma {:induction false} StripSeparatorsAppend(a: string, b: string)
    ensures StripSeparators(a + b) == StripSeparators(a) + StripSeparators(b)
  {
    if a == [] {
      assert a + b == b;
    } else {
      assert (a + b)[0] == a[0] && (a + b)[1..] == a[1..] + b;
      StripSeparatorsAppend(a[1..], b);
    }
  }

  lemma {:induction false} StripSeparatorsTrimStart(s: string)
    ensures StripSeparators(TrimStart(s)) == StripSeparators(s)
  {
    if s != [] && IsWhitespace(s[0]) {
      StripSeparatorsTrimStart(s[1..]);
    }
  }

  lemma {:induction false} StripSeparatorsTrimEnd(s: string)
    ensures StripSeparators(TrimEnd(s)) == StripSeparators(s)
  {
    if s != [] && IsWhitespace(s[|s| - 1]) {
      var init := s[..|s| - 1];
      StripSeparatorsTrimEnd(init);
      assert s == init + [s[|s| - 1]];
      StripSeparatorsAppend(init, [s[|s| - 1]]);
      assert StripSeparators([s[|s| - 1]]) == [];
    }
  }

  /** Trimming before the normaliser changes nothing: the white space it drops is dropped anyway. */
  lemma StripSeparatorsTrim(s: string)
    ensures StripSeparators(Trim(s)) == StripSeparators(s)
  {
    StripSeparatorsTrimStart(s);
    StripSeparatorsTrimEnd(TrimStart(s));
  }

  predicate IsPrefix(p: string, s: string)
  {
    |p| <= |s| && s[..|p|] == p
  }

  /** `s.includes(sub)`. */
  predicate Contains(s: string, sub: string)
  {
    exists i :: 0 <= i <= |s| - |sub| && IsPrefix(sub, s[i..])
  }

  lemma ContainsEmpty(s: string)
    ensures Contains(s, "")
  {
    assert IsPrefix("", s[0..]);
  }

  lemma ContainsSelf(s: string)
    ensures Contains(s, s)
  {
    assert s[0..] == s;
    assert IsPrefix(s, s[0..]);
  }

  lemma ContainsLength(s: string, sub: string)
    requires Contains(s, sub)
    ensures |sub| <= |s|
  {
  }

  /** `s.replace(/c/g, rep)` for a single character `c`. */
  function ReplaceAll(s: string, c: char, rep: string): (r: string)
    ensures c !in rep ==> c !in r
    ensures c !in s ==> r == s
  {
    if s == [] then []
    else (if s[0] == c then rep else [s[0]]) + ReplaceAll(s[1..], c, rep)
  }

  /** Replacing one character leaves every other character present. */
  lemma {:induction false} ReplaceAllKeeps(s: string, c: char, rep: string, d: char)
    requires d != c && d in s
    ensures d in ReplaceAll(s, c, rep)
  {
    var head := if s[0] == c then rep else [s[0]];
    assert ReplaceAll(s, c, rep) == head + ReplaceAll(s[1..], c, rep);
    if s[0] != d {
      assert d in s[1..];
      ReplaceAllKeeps(s[1..], c, rep, d);
    }
  }

  /** The longest prefix made of ASCII letters: what `/^([a-zA-Z]+)/` captures when it matches. */
  function LetterPrefix(s: string): (r: string)
    ensures IsPrefix(r, s)
    ensures forall c :: c in r ==> IsAsciiLetter(c)
    ensures |r| == |s| || !IsAsciiLetter(s[|r|])
  {
    if s != [] && IsAsciiLetter(s[0]) then [s[0]] + LetterPrefix(s[1..]) else []
  }

  /** The sum of the character codes, as `split('').reduce((acc, ch) => acc + ch.charCodeAt(0), 0)`. */
  function CharCodeSum(s: string): nat
  {
    if s == [] then 0 else s[0] as nat + CharCodeSum(s[1..])
  }

  lemma {:induction false} CharCodeSumAppend(s: string, t: string)
    ensures CharCodeSum(s + t) == CharCodeSum(s) + CharCodeSum(t)
  {
    if s != [] {
      assert (s + t)[0] == s[0] && (s + t)[1..] == s[1..] + t;
      CharCodeSumAppend(s[1..], t);
      assert CharCodeSum(s + t) == s[0] as nat + CharCodeSum(s[1..] + t);
    } else {
      assert s + t == t;
    }
  }

  /** The number a string of decimal digits denotes, most significant digit first. */
  function DigitsValue(s: string): int
  {
    if s == [] then 0 else DigitsValue(s[..|s| - 1]) * 10 + (s[|s| - 1] as int - '0' as int)
  }

  /**
   * Decimal rendering of a natural number, as a template literal prints it:
   * digits only, denoting `n`, with no leading zero.
   */
  function DecimalString(n: nat): (r: string)
    ensures |r| > 0
    ensures forall c :: c in r ==> IsAsciiDigit(c)
    ensures DigitsValue(r) == n
    ensures n > 0 ==> r[0] != '0'
  {
    var d := ['0' + (n % 10) as char];
    if n < 10 then d
    else
      var high := DecimalString(n / 10);
      assert (high + d)[..|high + d| - 1] == high;
      high + d
  }
}
