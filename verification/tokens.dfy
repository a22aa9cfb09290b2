/** Splitting a command line into tokens, as `command.strip().split()` does
    (RBAC_CLI.py, `RBACCommandLine.execute_command`): runs of whitespace
    separate tokens, and leading and trailing whitespace yields no empty
    token. */
module Tokens {

  /** The characters Python's `str.split()` with no separator treats as
      whitespace: ASCII tab to carriage return, the four information
      separators, space, and the Unicode space, line and paragraph
      separators. */
  const Whitespace: set<char> := {
    '\t', '\n', '\U{000B}', '\U{000C}', '\r',
    '\U{001C}', '\U{001D}', '\U{001E}', '\U{001F}', ' ',
    '\U{0085}', '\U{00A0}', '\U{1680}',
    '\U{2000}', '\U{2001}', '\U{2002}', '\U{2003}', '\U{2004}', '\U{2005}',
    '\U{2006}', '\U{2007}', '\U{2008}', '\U{2009}', '\U{200A}',
    '\U{2028}', '\U{2029}', '\U{202F}', '\U{205F}', '\U{3000}'
  }

  predicate IsSpace(c: char)
  {
    c in Whitespace
  }

  /** A token is a non-empty run of non-whitespace characters. */
  predicate IsToken(w: string)
  {
    |w| > 0 && forall i :: 0 <= i < |w| ==> !IsSpace(w[i])
  }

  /** The length of the run of non-whitespace characters `s` starts with. */
  function WordLength(s: string): (n: nat)
    ensures n <= |s|
    ensures forall i :: 0 <= i < n ==> !IsSpace(s[i])
    ensures n < |s| ==> IsSpace(s[n])
  {
    if |s| == 0 || IsSpace(s[0]) then 0 else 1 + WordLength(s[1..])
  }

  /** The tokens of `s`, left to right. */
  function Tokenize(s: string): (r: seq<string>)
    ensures forall i :: 0 <= i < |r| ==> IsToken(r[i])
    decreases |s|
  {
    if |s| == 0 then []
    else if IsSpace(s[0]) then Tokenize(s[1..])
    else
      var n := WordLength(s);
      [s[..n]] + Tokenize(s[n..])
  }

  /** The tokens separated by single spaces. */
  function Join(words: seq<string>): string
  {
    if |words| == 0 then ""
    else if |words| == 1 then words[0]
    else words[0] + " " + Join(words[1..])
  }

  /** `s` with leading and trailing whitespace removed, as `str.strip()`. */
  function Strip(s: string): (r: string)
    ensures |r| > 0 ==> !IsSpace(r[0]) && !IsSpace(r[|r| - 1])
    decreases |s|
  {
    if |s| > 0 && IsSpace(s[0]) then Strip(s[1..])
    else if |s| > 0 && IsSpace(s[|s| - 1]) then Strip(s[..|s| - 1])
    else s
  }

  lemma {:induction false} WordLengthOfToken(w: string, rest: string)
    requires IsToken(w)
    requires |rest| == 0 || IsSpace(rest[0])
    ensures WordLength(w + rest) == |w|
    decreases |w|
  {
    if |w| > 1 {
      assert (w + rest)[1..] == w[1..] + rest;
      WordLengthOfToken(w[1..], rest);
    }
  }

  /** Tokenizing space-joined tokens gives the tokens back. */
  lemma {:induction false} TokenizeJoin(words: seq<string>)
    requires forall i :: 0 <= i < |words| ==> IsToken(words[i])
    ensures Tokenize(Join(words)) == words
  {
    if |words| == 1 {
      var w := words[0];
      WordLengthOfToken(w, "");
      assert w + "" == w;
      assert w[|w|..] == [];
    } else if |words| > 1 {
      var w := words[0];
      var rest := " " + Join(words[1..]);
      assert Join(words) == w + rest;
      WordLengthOfToken(w, rest);
      assert (w + rest)[..|w|] == w;
      assert (w + rest)[|w|..] == rest;
      assert rest[1..] == Join(words[1..]);
      TokenizeJoin(words[1..]);
    }
  }

  /** One trailing whitespace character adds no token. */
  lemma {:induction false} TokenizeTrailingSpace(s: string, c: char)
    requires IsSpace(c)
    ensures Tokenize(s + [c]) == Tokenize(s)
    decreases |s|
  {
    if |s| == 0 {
      assert (s + [c])[1..] == [];
    } else if IsSpace(s[0]) {
      assert (s + [c])[1..] == s[1..] + [c];
      TokenizeTrailingSpace(s[1..], c);
    } else {
      var n := WordLength(s);
      WordLengthPrefix(s, [c]);
      assert (s + [c])[..n] == s[..n];
      assert (s + [c])[n..] == s[n..] + [c];
      TokenizeTrailingSpace(s[n..], c);
    }
  }

  /** Appending whitespace after a word does not lengthen it. */
  lemma {:induction false} WordLengthPrefix(s: string, t: string)
    requires |t| > 0 && IsSpace(t[0])
    ensures WordLength(s + t) == WordLength(s)
    decreases |s|
  {
    if |s| > 0 && !IsSpace(s[0]) {
      assert (s + t)[1..] == s[1..] + t;
      WordLengthPrefix(s[1..], t);
    }
  }

  /** Stripping before splitting changes nothing: `split()` already drops
      surrounding whitespace. */
  lemma {:induction false} TokenizeStrip(s: string)
    ensures Tokenize(Strip(s)) == Tokenize(s)
    decreases |s|
  {
    if |s| > 0 && IsSpace(s[0]) {
      TokenizeStrip(s[1..]);
    } else if |s| > 0 && IsSpace(s[|s| - 1]) {
      var init := s[..|s| - 1];
      assert s == init + [s[|s| - 1]];
      TokenizeTrailingSpace(init, s[|s| - 1]);
      TokenizeStrip(init);
    }
  }

  /** Leading whitespace of any kind and length adds no token. */
  lemma {:induction false} TokenizeLeadingSpace(sep: string, rest: string)
    requires forall i :: 0 <= i < |sep| ==> IsSpace(sep[i])
    ensures Tokenize(sep + rest) == Tokenize(rest)
    decreases |sep|
  {
    if |sep| > 0 {
      assert (sep + rest)[1..] == sep[1..] + rest;
      TokenizeLeadingSpace(sep[1..], rest);
    } else {
      assert sep + rest == rest;
    }
  }

  /** A token followed by any non-empty run of whitespace is split off as
      one token, however many tabs, newlines or spaces follow it. */
  lemma {:induction false} TokenizeWordThenSpace(w: string, sep: string, rest: string)
    requires IsToken(w)
    requires |sep| > 0 && forall i :: 0 <= i < |sep| ==> IsSpace(sep[i])
    ensures Tokenize(w + sep + rest) == [w] + Tokenize(rest)
  {
    var s := w + sep + rest;
    assert s == w + (sep + rest);
    WordLengthOfToken(w, sep + rest);
    assert s[..|w|] == w;
    assert s[|w|..] == sep + rest;
    TokenizeLeadingSpace(sep, rest);
  }
}
