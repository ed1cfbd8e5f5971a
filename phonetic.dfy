/**
 * The Spanish-oriented phonetic code of `spanishPhoneticEncoder`: lower-case,
 * strip accents, keep ASCII letters, apply nine ordered global rewrites, and
 * collapse runs of one letter.
 */
module Phonetic {
  import opened Text

  /** Canonical decomposition (NFD) of the precomposed lower-case Latin-1 letters. */
  const NFD_TABLE: map<char, string> := map[
    '\U{E0}' := "a\U{300}", '\U{E1}' := "a\U{301}", '\U{E2}' := "a\U{302}", '\U{E3}' := "a\U{303}",
    '\U{E4}' := "a\U{308}", '\U{E5}' := "a\U{30A}", '\U{E7}' := "c\U{327}",
    '\U{E8}' := "e\U{300}", '\U{E9}' := "e\U{301}", '\U{EA}' := "e\U{302}", '\U{EB}' := "e\U{308}",
    '\U{EC}' := "i\U{300}", '\U{ED}' := "i\U{301}", '\U{EE}' := "i\U{302}", '\U{EF}' := "i\U{308}",
    '\U{F1}' := "n\U{303}",
    '\U{F2}' := "o\U{300}", '\U{F3}' := "o\U{301}", '\U{F4}' := "o\U{302}", '\U{F5}' := "o\U{303}",
    '\U{F6}' := "o\U{308}",
    '\U{F9}' := "u\U{300}", '\U{FA}' := "u\U{301}", '\U{FB}' := "u\U{302}", '\U{FC}' := "u\U{308}",
    '\U{FD}' := "y\U{301}", '\U{FF}' := "y\U{308}"
  ]

  /** `normalize("NFD")`, for the characters the table covers. */
  function Nfd(s: string): string
  {
    if s == [] then []
    else (if s[0] in NFD_TABLE then NFD_TABLE[s[0]] else [s[0]]) + Nfd(s[1..])
  }

  predicate IsCombiningMark(c: char) { '\U{300}' <= c <= '\U{36F}' }

  /** `replace(/[̀-ͯ]/g, "")`. */
  function StripMarks(s: string): (r: string)
    ensures forall c :: c in r ==> c in s && !IsCombiningMark(c)
  {
    if s == [] then []
    else (if IsCombiningMark(s[0]) then [] else [s[0]]) + StripMarks(s[1..])
  }

  /** `replace(/[^a-z]/g, '')`. */
  function KeepLetters(s: string): (r: string)
    ensures forall c :: c in r ==> IsAsciiLower(c)
  {
    if s == [] then []
    else (if IsAsciiLower(s[0]) then [s[0]] else []) + KeepLetters(s[1..])
  }

  /** What is left before the phonetic rewrites: lower-case, accents removed, ASCII letters only. */
  function Folded(text: string): string
  {
    KeepLetters(StripMarks(Nfd(Lower(text))))
  }

  /** `replace(/x/g, '')`. */
  function Delete(s: string, x: char): (r: string)
    ensures forall c :: c in r ==> c in s && c != x
  {
    if s == [] then []
    else (if s[0] == x then [] else [s[0]]) + Delete(s[1..], x)
  }

  /** `replace(/[from]/g, to)`: every character of the class becomes `to`. */
  function Translate(s: string, from: set<char>, to: char): (r: string)
    ensures |r| == |s|
    ensures forall c :: c in r ==> c == to || (c in s && c !in from)
  {
    if s == [] then []
    else [if s[0] in from then to else s[0]] + Translate(s[1..], from, to)
  }

  /** `replace(/x([ei])/g, to + '$1')`: `x` before `e` or `i` becomes `to`; the vowel is consumed with it. */
  function BeforeFrontVowel(s: string, x: char, to: char): (r: string)
    ensures |r| == |s|
    ensures forall c :: c in r ==> c == to || c in s
    decreases |s|
  {
    if |s| >= 2 && s[0] == x && (s[1] == 'e' || s[1] == 'i') then
      [to, s[1]] + BeforeFrontVowel(s[2..], x, to)
    else if s == [] then []
    else [s[0]] + BeforeFrontVowel(s[1..], x, to)
  }

  /** `replace(/ll/g, 'i')`, leftmost pairs first. */
  function DoubleL(s: string): (r: string)
    ensures |r| <= |s|
    ensures forall c :: c in r ==> c == 'i' || c in s
    decreases |s|
  {
    if |s| >= 2 && s[0] == 'l' && s[1] == 'l' then ['i'] + DoubleL(s[2..])
    else if s == [] then []
    else [s[0]] + DoubleL(s[1..])
  }

  /** The three rewrites that run before `c([ei])`: drop `h`, `[wv]` to `b`, `z` to `s`. */
  function Prefix3(s: string): string
  {
    Translate(Translate(Delete(s, 'h'), {'w', 'v'}, 'b'), {'z'}, 's')
  }

  /** The five rewrites that run after `c([ei])`: `[ckq]` to `k`, `g([ei])`, `x` to `j`, `ll` to `i`, `y` to `i`. */
  function Suffix5(s: string): string
  {
    Translate(DoubleL(Translate(BeforeFrontVowel(Translate(s, {'c', 'k', 'q'}, 'k'), 'g', 'j'), {'x'}, 'j')), {'y'}, 'i')
  }

  /** The nine rewrites, in source order. */
  function Rewrite(s: string): string
  {
    Suffix5(BeforeFrontVowel(Prefix3(s), 'c', 's'))
  }

  /** `filter((ch, i, arr) => ch !== arr[i - 1])`: keep the first letter of every run. */
  function Dedup(s: string): (r: string)
    ensures forall c :: c in r ==> c in s
    ensures forall i :: 0 < i < |r| ==> r[i] != r[i - 1]
    ensures |s| > 0 ==> |r| > 0 && r[|r| - 1] == s[|s| - 1]
  {
    if |s| <= 1 then s
    else if s[|s| - 1] == s[|s| - 2] then Dedup(s[..|s| - 1])
    else Dedup(s[..|s| - 1]) + [s[|s| - 1]]
  }

  /** The letters a phonetic code can contain: a to z except h, v, w, z, c, q, x and y. */
  predicate IsCodeLetter(c: char)
  {
    IsAsciiLower(c) && c != 'h' && c != 'v' && c != 'w' && c != 'z' &&
    c != 'c' && c != 'q' && c != 'x' && c != 'y'
  }

  /** A lower-case letter that none of the first four rewrites would change again. */
  predicate AfterPrefix(c: char)
  {
    IsAsciiLower(c) && c != 'h' && c != 'w' && c != 'v' && c != 'z'
  }

  /** The rewrites up to `c([ei])` remove `h`, `w`, `v` and `z`. */
  lemma {:induction false} PrefixLetters(s: string)
    requires forall c :: c in s ==> IsAsciiLower(c)
    ensures forall c :: c in BeforeFrontVowel(Prefix3(s), 'c', 's') ==> AfterPrefix(c)
  {
    var s1 := Delete(s, 'h');
    var s2 := Translate(s1, {'w', 'v'}, 'b');
    assert forall c :: c in s2 ==> IsAsciiLower(c) && c != 'h' && c != 'w' && c != 'v';
    var s3 := Translate(s2, {'z'}, 's');
    assert forall c :: c in s3 ==> AfterPrefix(c);
  }

  /** The last five rewrites remove `c`, `q`, `x` and `y` and bring back none of the others. */
  lemma {:induction false} SuffixLetters(t: string)
    requires forall c :: c in t ==> AfterPrefix(c)
    ensures forall c :: c in Suffix5(t) ==> IsCodeLetter(c)
  {
    var s5 := Translate(t, {'c', 'k', 'q'}, 'k');
    assert forall c :: c in s5 ==> AfterPrefix(c) && c != 'c' && c != 'q';
    var s6 := BeforeFrontVowel(s5, 'g', 'j');
    var s7 := Translate(s6, {'x'}, 'j');
    assert forall c :: c in s7 ==> AfterPrefix(c) && c != 'c' && c != 'q' && c != 'x';
    var s8 := DoubleL(s7);
    var s9 := Translate(s8, {'y'}, 'i');
    assert s9 == Suffix5(t);
  }

  /** Each rewrite removes the letters it targets and introduces none that an earlier one removed. */
  lemma {:induction false} RewriteLetters(s: string)
    requires forall c :: c in s ==> IsAsciiLower(c)
    ensures forall c :: c in Rewrite(s) ==> IsCodeLetter(c)
  {
    PrefixLetters(s);
    SuffixLetters(BeforeFrontVowel(Prefix3(s), 'c', 's'));
  }

  /** `spanishPhoneticEncoder`. */
  function Encode(text: string): (code: string)
    ensures forall c :: c in code ==> IsCodeLetter(c)
    ensures forall i :: 0 < i < |code| ==> code[i] != code[i - 1]
    ensures text == "" || Folded(text) == "" ==> code == ""
  {
    if text == "" then ""
    else
      var s := Folded(text);
      if s == "" then ""
      else
        var r := Rewrite(s);
        RewriteLetters(s);
        if |r| > 1 then Dedup(r) else r
  }

  lemma {:induction false} NfdFixes(s: string)
    requires forall c :: c in s ==> c !in NFD_TABLE
    ensures Nfd(s) == s
  {
    if s != [] {
      assert s[0] in s && forall c :: c in s[1..] ==> c in s;
      NfdFixes(s[1..]);
    }
  }

  lemma {:induction false} StripMarksFixes(s: string)
    requires forall c :: c in s ==> !IsCombiningMark(c)
    ensures StripMarks(s) == s
  {
    if s != [] {
      assert s[0] in s && forall c :: c in s[1..] ==> c in s;
      StripMarksFixes(s[1..]);
    }
  }

  lemma {:induction false} KeepLettersFixes(s: string)
    requires forall c :: c in s ==> IsAsciiLower(c)
    ensures KeepLetters(s) == s
  {
    if s != [] {
      assert s[0] in s && forall c :: c in s[1..] ==> c in s;
      KeepLettersFixes(s[1..]);
    }
  }

  lemma {:induction false} KeepLettersDropsAll(s: string)
    requires forall c :: c in s ==> !IsAsciiLower(c)
    ensures KeepLetters(s) == ""
  {
    if s != [] {
      assert s[0] in s && forall c :: c in s[1..] ==> c in s;
      KeepLettersDropsAll(s[1..]);
    }
  }

  /** Text already made of lower-case ASCII letters reaches the rewrites unchanged. */
  lemma {:induction false} FoldedFixes(s: string)
    requires forall c :: c in s ==> IsAsciiLower(c)
    ensures Folded(s) == s
  {
    forall i | 0 <= i < |s| ensures !IsUpper(s[i]) { assert s[i] in s; }
    assert Lower(s) == s;
    NfdFixes(s);
    StripMarksFixes(s);
    KeepLettersFixes(s);
  }

  /** Text with no ASCII letter and no Latin-1 letter has the empty code. */
  lemma {:induction false} LetterlessEncodesEmpty(text: string)
    requires forall c :: c in text ==> !IsAsciiLetter(c) && !('\U{C0}' <= c <= '\U{FF}')
    ensures Encode(text) == ""
  {
    forall i | 0 <= i < |text| ensures !IsUpper(text[i]) && text[i] !in NFD_TABLE {
      assert text[i] in text;
    }
    assert Lower(text) == text;
    NfdFixes(text);
    KeepLettersDropsAll(StripMarks(text));
  }

  lemma {:induction false} DeleteFixes(s: string, x: char)
    requires x !in s
    ensures Delete(s, x) == s
  {
    if s != [] { assert s[0] in s && x !in s[1..]; DeleteFixes(s[1..], x); }
  }

  lemma {:induction false} TranslateFixes(s: string, from: set<char>, to: char)
    requires forall c :: c in s ==> c !in from
    ensures Translate(s, from, to) == s
  {
    if s != [] {
      assert s[0] in s && forall c :: c in s[1..] ==> c in s;
      TranslateFixes(s[1..], from, to);
    }
  }

  lemma {:induction false} BeforeFrontVowelFixes(s: string, x: char, to: char)
    requires x !in s
    ensures BeforeFrontVowel(s, x, to) == s
  {
    if s != [] { assert s[0] in s && x !in s[1..]; BeforeFrontVowelFixes(s[1..], x, to); }
  }

  lemma {:induction false} DoubleLFixes(s: string)
    requires 'l' !in s
    ensures DoubleL(s) == s
  {
    if s != [] { assert s[0] in s && 'l' !in s[1..]; DoubleLFixes(s[1..]); }
  }

  lemma {:induction false} DedupFixes(s: string)
    requires forall i :: 0 < i < |s| ==> s[i] != s[i - 1]
    ensures Dedup(s) == s
  {
    if |s| > 1 {
      DedupFixes(s[..|s| - 1]);
      assert s == s[..|s| - 1] + [s[|s| - 1]];
    }
  }

  /** The rewrites leave alone a string with none of the letters they look at. */
  lemma {:induction false} RewriteFixes(s: string)
    requires forall c :: c in s ==> c !in {'h', 'w', 'v', 'z', 'c', 'k', 'q', 'g', 'x', 'l', 'y'}
    ensures Rewrite(s) == s
  {
    DeleteFixes(s, 'h');
    TranslateFixes(s, {'w', 'v'}, 'b');
    TranslateFixes(s, {'z'}, 's');
    BeforeFrontVowelFixes(s, 'c', 's');
    TranslateFixes(s, {'c', 'k', 'q'}, 'k');
    BeforeFrontVowelFixes(s, 'g', 'j');
    TranslateFixes(s, {'x'}, 'j');
    DoubleLFixes(s);
    TranslateFixes(s, {'y'}, 'i');
  }

  /** A string of code letters with no repeated neighbours is its own code. */
  lemma {:induction false} EncodeFixes(s: string)
    requires s != []
    requires forall c :: c in s ==> IsAsciiLower(c) && c !in {'h', 'w', 'v', 'z', 'c', 'k', 'q', 'g', 'x', 'l', 'y'}
    requires forall i :: 0 < i < |s| ==> s[i] != s[i - 1]
    ensures Encode(s) == s
  {
    FoldedFixes(s);
    RewriteFixes(s);
    DedupFixes(s);
  }

  lemma {:induction false} ConsDelete(x: char, t: string, y: char)
    requires x != y
    ensures Delete([x] + t, y) == [x] + Delete(t, y)
  {
    assert ([x] + t)[1..] == t;
  }

  lemma {:induction false} ConsTranslate(x: char, t: string, from: set<char>, to: char)
    requires x !in from
    ensures Translate([x] + t, from, to) == [x] + Translate(t, from, to)
  {
    assert ([x] + t)[1..] == t;
  }

  lemma {:induction false} Prefix3Cons(x: char, t: string)
    requires x !in {'h', 'w', 'v', 'z'}
    ensures Prefix3([x] + t) == [x] + Prefix3(t)
  {
    ConsDelete(x, t, 'h');
    ConsTranslate(x, Delete(t, 'h'), {'w', 'v'}, 'b');
    ConsTranslate(x, Translate(Delete(t, 'h'), {'w', 'v'}, 'b'), {'z'}, 's');
  }

  /** Two folded strings with the same rewrite have the same code. */
  lemma {:induction false} SameRewriteSameCode(a: string, b: string)
    requires a != [] && b != [] && Folded(a) == a && Folded(b) == b
    requires Rewrite(a) == Rewrite(b)
    ensures Encode(a) == Encode(b)
  {
  }

  lemma BeforeFrontVowelFires(s: string, x: char, to: char)
    requires |s| >= 2 && s[0] == x && (s[1] == 'e' || s[1] == 'i')
    ensures BeforeFrontVowel(s, x, to) == [to, s[1]] + BeforeFrontVowel(s[2..], x, to)
  {
  }

  lemma BeforeFrontVowelKeeps(s: string, x: char, to: char)
    requires s != [] && s[0] != x
    ensures BeforeFrontVowel(s, x, to) == [s[0]] + BeforeFrontVowel(s[1..], x, to)
  {
  }

  lemma {:induction false} BeforeFrontVowelSoftC(p: string)
    requires p != [] && (p[0] == 'e' || p[0] == 'i')
    ensures BeforeFrontVowel(['c'] + p, 'c', 's') == BeforeFrontVowel(['s'] + p, 'c', 's')
  {
    var cp, sp := ['c'] + p, ['s'] + p;
    assert cp[1] == p[0] && cp[2..] == p[1..];
    assert sp[1..] == p;
    var tail := BeforeFrontVowel(p[1..], 'c', 's');
    BeforeFrontVowelFires(cp, 'c', 's');
    BeforeFrontVowelKeeps(sp, 'c', 's');
    BeforeFrontVowelKeeps(p, 'c', 's');
    assert ['s', p[0]] + tail == ['s'] + ([p[0]] + tail);
  }

  lemma {:induction false} RewriteSoftC(t: string)
    requires t != [] && (t[0] == 'e' || t[0] == 'i')
    ensures Rewrite(['c'] + t) == Rewrite(['s'] + t)
  {
    assert t == [t[0]] + t[1..];
    Prefix3Cons(t[0], t[1..]);
    var pt := Prefix3(t);
    Prefix3Cons('c', t);
    Prefix3Cons('s', t);
    BeforeFrontVowelSoftC(pt);
    assert Rewrite(['c'] + t) == Suffix5(BeforeFrontVowel(['c'] + pt, 'c', 's'));
    assert Rewrite(['s'] + t) == Suffix5(BeforeFrontVowel(['s'] + pt, 'c', 's'));
  }

  /** A `c` before `e` or `i` sounds, and encodes, like an `s`. */
  lemma {:induction false} SoftCSoundsLikeS(t: string)
    requires t != [] && (t[0] == 'e' || t[0] == 'i')
    requires forall c :: c in t ==> IsAsciiLower(c)
    ensures Encode(['c'] + t) == Encode(['s'] + t)
  {
    var ct, st := ['c'] + t, ['s'] + t;
    assert forall c :: c in ct ==> c == 'c' || c in t;
    assert forall c :: c in st ==> c == 's' || c in t;
    FoldedFixes(ct);
    FoldedFixes(st);
    RewriteSoftC(t);
    SameRewriteSameCode(ct, st);
  }

  lemma SintiaCode(sintia: string)
    requires sintia == "sintia"
    ensures Encode(sintia) == sintia
  {
    assert forall c :: c in sintia ==> c in {'s', 'i', 'n', 't', 'a'};
    EncodeFixes(sintia);
  }

  /** "Cintia" and "Sintia" share the code "sintia". */
  lemma CintiaSintia(cintia: string, sintia: string)
    requires cintia == "cintia" && sintia == "sintia"
    ensures Encode(cintia) == Encode(sintia) == sintia
  {
    var tail := sintia[1..];
    assert cintia == ['c'] + tail && sintia == ['s'] + tail;
    assert forall c :: c in tail ==> c in {'i', 'n', 't', 'a'};
    SoftCSoundsLikeS(tail);
    SintiaCode(sintia);
  }

  /** The code does not depend on letter case. */
  lemma {:induction false} EncodeIgnoresCase(text: string)
    ensures Encode(Lower(text)) == Encode(text)
  {
    assert Lower(Lower(text)) == Lower(text);
  }
}
