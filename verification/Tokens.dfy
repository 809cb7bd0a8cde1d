/**
 * The words of a command line: what shell_parse (src/shell.c) is meant to find,
 * and how it finds them in place.
 */
module Tokens {
  /** The number of characters before the first space. */
  function WordLength(s: string): (n: nat)
    ensures n <= |s| && ' ' !in s[..n] && (n < |s| ==> s[n] == ' ')
  {
    if s == "" || s[0] == ' ' then 0 else
      var n := 1 + WordLength(s[1..]);
      assert s[..n] == [s[0]] + s[1..][..n - 1];
      n
  }

  /** The maximal non-space words of `s`, in order. */
  function Words(s: string): seq<string>
    decreases |s|
  {
    if s == "" then []
    else if s[0] == ' ' then Words(s[1..])
    else [s[..WordLength(s)]] + Words(s[WordLength(s)..])
  }

  predicate IsWord(w: string) { w != "" && ' ' !in w }

  lemma {:induction false} WordsAreWords(s: string)
    ensures forall w <- Words(s) :: IsWord(w)
    decreases |s|
  {
    if s != "" {
      WordsAreWords(if s[0] == ' ' then s[1..] else s[WordLength(s)..]);
    }
  }

  /** A text without spaces is one word. */
  lemma WordIsOneWord(w: string)
    requires IsWord(w)
    ensures Words(w) == [w]
  {
    assert w[..|w|] == w;
    assert WordLength(w) == |w| && Words(w[|w|..]) == [];
  }

  /** A space anywhere splits the words into those before and those after it. */
  lemma {:induction false} WordsSplitAtSpace(s: string, t: string)
    ensures Words(s + [' '] + t) == Words(s) + Words(t)
    decreases |s|
  {
    var u := s + [' '] + t;
    if s == "" {
      assert u[1..] == t;
    } else if s[0] == ' ' {
      assert u[1..] == s[1..] + [' '] + t;
      WordsSplitAtSpace(s[1..], t);
    } else {
      var n := WordLength(s);
      WordLengthBeforeSpace(s, t);
      assert u[..n] == s[..n];
      assert u[n..] == s[n..] + [' '] + t;
      WordsSplitAtSpace(s[n..], t);
    }
  }

  lemma {:induction false} WordLengthBeforeSpace(s: string, t: string)
    ensures WordLength(s + [' '] + t) == WordLength(s)
    decreases |s|
  {
    if s != "" && s[0] != ' ' {
      assert (s + [' '] + t)[1..] == s[1..] + [' '] + t;
      WordLengthBeforeSpace(s[1..], t);
    }
  }

  /** The words with single spaces between them. */
  function Join(words: seq<string>): string {
    if |words| == 0 then ""
    else if |words| == 1 then words[0]
    else words[0] + [' '] + Join(words[1..])
  }

  /** Parsing what was joined gives the words back. */
  lemma {:induction false} WordsOfJoin(words: seq<string>)
    requires forall w <- words :: IsWord(w)
    ensures Words(Join(words)) == words
    decreases |words|
  {
    if |words| == 1 {
      WordIsOneWord(words[0]);
    } else if |words| > 1 {
      WordsSplitAtSpace(words[0], Join(words[1..]));
      WordIsOneWord(words[0]);
      WordsOfJoin(words[1..]);
    }
  }

  /** The characters that are not spaces. */
  function Ink(s: string): string {
    if s == "" then "" else (if s[0] == ' ' then "" else [s[0]]) + Ink(s[1..])
  }

  function Concat(words: seq<string>): string {
    if words == [] then "" else words[0] + Concat(words[1..])
  }

  lemma {:induction false} InkOfWord(w: string, rest: string)
    requires ' ' !in w
    ensures Ink(w + rest) == w + Ink(rest)
    decreases |w|
  {
    if w == "" {
      assert w + rest == rest;
    } else {
      assert (w + rest)[1..] == w[1..] + rest;
      InkOfWord(w[1..], rest);
    }
  }

  /** The words carry every non-space character, in order. */
  lemma {:induction false} WordsKeepTheInk(s: string)
    ensures Concat(Words(s)) == Ink(s)
    decreases |s|
  {
    if s != "" && s[0] == ' ' {
      WordsKeepTheInk(s[1..]);
    } else if s != "" {
      var n := WordLength(s);
      InkOfWord(s[..n], s[n..]);
      assert s[..n] + s[n..] == s;
      WordsKeepTheInk(s[n..]);
    }
  }

  /** So does parsing any of the first words of a text again. */
  lemma ReparsingGivesTheWordsBack(s: string, n: nat)
    requires n <= |Words(s)|
    ensures Words(Join(Words(s)[..n])) == Words(s)[..n]
  {
    WordsAreWords(s);
    WordsOfJoin(Words(s)[..n]);
  }
}
