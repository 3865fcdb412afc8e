/** The little string handling the engine relies on: strip(), and lower() on ASCII letters. */
module Text {

  /** str.isspace of one character. */
  predicate Space(c: char) {
    var n := c as int;
    || 9 <= n <= 13 || 28 <= n <= 32 || n == 0x85 || n == 0xA0 || n == 0x1680 || 0x2000 <= n <= 0x200A
    || n == 0x2028 || n == 0x2029 || n == 0x202F || n == 0x205F || n == 0x3000
  }

  /** Nothing is left of s when stripped. */
  predicate Blank(s: string) { forall i :: 0 <= i < |s| ==> Space(s[i]) }

  function Strip(s: string): string {
    if s != [] && Space(s[0]) then Strip(s[1..])
    else if s != [] && Space(s[|s| - 1]) then Strip(s[..|s| - 1])
    else s
  }

  function LowerChar(c: char): char { if 'A' <= c <= 'Z' then (c as int + 32) as char else c }

  function Lower(s: string): string { if s == [] then [] else [LowerChar(s[0])] + Lower(s[1..]) }

  // ----- what stripping and lowering mean ----------------------------------

  /** On ASCII the whitespace is the blank and the controls 9 to 13 and 28 to 31. */
  lemma AsciiSpace(c: char)
    requires c as int < 0x80
    ensures Space(c) <==> c == ' ' || 9 <= c as int <= 13 || 28 <= c as int <= 31
  {
  }

  /** Beyond ASCII it is the next-line control and Unicode's separators. */
  lemma UnicodeSpace(c: char)
    requires c as int >= 0x80
    ensures Space(c) <==> 0x2000 <= c as int <= 0x200A
                          || c as int in {0x85, 0xA0, 0x1680, 0x2028, 0x2029, 0x202F, 0x205F, 0x3000}
  {
  }

  /** x is the lower-case word, some of its letters perhaps capitals. */
  predicate SameLetters(x: string, word: string) {
    && |x| == |word|
    && forall i :: 0 <= i < |x| ==> x[i] == word[i] || ('A' <= x[i] <= 'Z' && word[i] as int == x[i] as int + 32)
  }

  ghost predicate SpellsAt(s: string, word: string, from: nat, to: nat) {
    from <= to <= |s| && Blank(s[..from]) && Blank(s[to..]) && SameLetters(s[from..to], word)
  }

  /** s is the word in any case, with any space around it. */
  ghost predicate Spells(s: string, word: string) { exists i: nat, j: nat :: SpellsAt(s, word, i, j) }

  /** A lower-case word without space. */
  predicate IsWord(w: string) { w != [] && forall i :: 0 <= i < |w| ==> !Space(w[i]) && !('A' <= w[i] <= 'Z') }

  lemma {:induction false} LowerPointwise(s: string)
    ensures |Lower(s)| == |s| && forall i :: 0 <= i < |s| ==> Lower(s)[i] == LowerChar(s[i])
  {
    if s != [] { LowerPointwise(s[1..]); }
  }

  lemma LowerIs(x: string, word: string)
    requires forall i :: 0 <= i < |word| ==> !('A' <= word[i] <= 'Z')
    ensures Lower(x) == word <==> SameLetters(x, word)
  {
    LowerPointwise(x);
  }

  lemma {:induction false} StripSplits(s: string) returns (i: nat, j: nat)
    ensures i <= j <= |s| && Blank(s[..i]) && Blank(s[j..]) && Strip(s) == s[i..j]
    decreases |s|
  {
    hide Space;
    if s != [] && Space(s[0]) {
      var a, b := StripSplits(s[1..]);
      i, j := a + 1, b + 1;
      SplitAfterFirst(s, a, b);
    } else if s != [] && Space(s[|s| - 1]) {
      i, j := StripSplits(s[..|s| - 1]);
      SplitBeforeLast(s, i, j);
    } else {
      i, j := 0, |s|;
    }
  }

  lemma SplitAfterFirst(s: string, a: nat, b: nat)
    requires s != [] && Space(s[0]) && a <= b < |s| && Blank(s[1..][..a]) && Blank(s[1..][b..])
    ensures Blank(s[..a + 1]) && Blank(s[b + 1..]) && s[a + 1..b + 1] == s[1..][a..b]
  {
    hide Space;
    assert s[..a + 1] == [s[0]] + s[1..][..a];
    assert s[b + 1..] == s[1..][b..];
  }

  lemma SplitBeforeLast(s: string, i: nat, j: nat)
    requires s != [] && Space(s[|s| - 1]) && i <= j < |s|
    requires Blank(s[..|s| - 1][..i]) && Blank(s[..|s| - 1][j..])
    ensures Blank(s[..i]) && Blank(s[j..]) && s[i..j] == s[..|s| - 1][i..j]
  {
    hide Space;
    assert s[..i] == s[..|s| - 1][..i];
    assert s[j..] == s[..|s| - 1][j..] + [s[|s| - 1]];
  }

  lemma {:induction false} StripLeft(a: string, t: string)
    requires Blank(a)
    ensures Strip(a + t) == Strip(t)
  {
    hide Space;
    if a == [] {
      assert a + t == t;
    } else {
      assert (a + t)[1..] == a[1..] + t;
      StripLeft(a[1..], t);
    }
  }

  lemma {:induction false} StripRight(x: string, b: string)
    requires x != [] && !Space(x[0]) && !Space(x[|x| - 1]) && Blank(b)
    ensures Strip(x + b) == x
    decreases |b|
  {
    hide Space;
    if b == [] {
      assert x + b == x;
    } else {
      assert (x + b)[..|x + b| - 1] == x + b[..|b| - 1] && (x + b)[|x + b| - 1] == b[|b| - 1];
      StripRight(x, b[..|b| - 1]);
    }
  }

  lemma LettersAreNoSpace(x: string, word: string)
    requires IsWord(word) && SameLetters(x, word)
    ensures x != [] && forall i :: 0 <= i < |x| ==> !Space(x[i])
  {
  }

  lemma SpelledReads(s: string, word: string, i: nat, j: nat)
    requires IsWord(word) && SpellsAt(s, word, i, j)
    ensures Lower(Strip(s)) == word
  {
    hide Space, Strip;
    LowerIs(s[i..j], word);
    LettersAreNoSpace(s[i..j], word);
    StripRight(s[i..j], s[j..]);
    StripLeft(s[..i], s[i..j] + s[j..]);
    assert s == s[..i] + (s[i..j] + s[j..]);
  }

  /** strip().lower() gives the word exactly when the text spells it. */
  lemma SpellsIff(s: string, word: string)
    requires IsWord(word)
    ensures Lower(Strip(s)) == word <==> Spells(s, word)
  {
    hide Space, Strip;
    if Lower(Strip(s)) == word {
      var i, j := StripSplits(s);
      LowerIs(s[i..j], word);
      assert SpellsAt(s, word, i, j);
    } else if Spells(s, word) {
      var i: nat, j: nat :| SpellsAt(s, word, i, j);
      SpelledReads(s, word, i, j);
    }
  }
}
