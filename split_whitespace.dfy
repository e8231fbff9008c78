/**
  The tokenizer of `validate_license_expr`: Rust's `str::split_whitespace`,
  which cuts a string at every run of whitespace and drops the empty pieces
  (so leading, trailing and repeated whitespace produce no words).
 */
module SplitWhitespace {

  /** The characters with the Unicode White_Space property, listed one by
      one. */
  const WhiteSpace: set<char> := {
    '\t', '\n', '\U{B}', '\U{C}', '\r', ' ', '\U{85}', '\U{A0}', '\U{1680}',
    '\U{2000}', '\U{2001}', '\U{2002}', '\U{2003}', '\U{2004}', '\U{2005}',
    '\U{2006}', '\U{2007}', '\U{2008}', '\U{2009}', '\U{200A}',
    '\U{2028}', '\U{2029}', '\U{202F}', '\U{205F}', '\U{3000}'
  }

  /** Rust's `char::is_whitespace`, written as range tests. None of the
      characters lies strictly between the space and U+0085, which settles
      printable ASCII with one comparison. */
  predicate IsWhitespace(c: char) {
    if c <= ' ' then c == ' ' || '\t' <= c <= '\r'
    else if c < '\U{85}' then false
    else
      c == '\U{85}' || c == '\U{A0}' || c == '\U{1680}'
      || ('\U{2000}' <= c <= '\U{200A}')
      || c == '\U{2028}' || c == '\U{2029}' || c == '\U{202F}'
      || c == '\U{205F}' || c == '\U{3000}'
  }

  /** The range tests pick out exactly the listed characters. */
  lemma IsWhitespaceTable(c: char)
    ensures IsWhitespace(c) <==> c in WhiteSpace
  {
  }

  /** A piece `split_whitespace` can yield: non-empty, no whitespace in it. */
  predicate IsWord(w: string) {
    |w| > 0 && forall i :: 0 <= i < |w| ==> !IsWhitespace(w[i])
  }

  predicate AllWhitespace(s: string) {
    forall i :: 0 <= i < |s| ==> IsWhitespace(s[i])
  }

  /** Length of the longest whitespace-free prefix of `s`: the index of the
      first whitespace character, or `|s|` if there is none. */
  function WordLength(s: string): (n: nat)
    ensures n <= |s|
    ensures forall i :: 0 <= i < n ==> !IsWhitespace(s[i])
    ensures n < |s| ==> IsWhitespace(s[n])
  {
    if |s| == 0 || IsWhitespace(s[0]) then 0 else 1 + WordLength(s[1..])
  }

  /** `s.split_whitespace()` collected into a sequence, in input order. */
  function Words(s: string): (ws: seq<string>)
    ensures forall k :: 0 <= k < |ws| ==> IsWord(ws[k])
    decreases |s|
  {
    if |s| == 0 then []
    else if IsWhitespace(s[0]) then Words(s[1..])
    else
      var n := WordLength(s);
      [s[..n]] + Words(s[n..])
  }

  /** The characters of `s` that are not whitespace, in order. */
  function NonWhitespace(s: string): string {
    if |s| == 0 then ""
    else if IsWhitespace(s[0]) then NonWhitespace(s[1..])
    else [s[0]] + NonWhitespace(s[1..])
  }

  /** The words laid end to end. */
  function Concat(ws: seq<string>): string {
    if |ws| == 0 then "" else ws[0] + Concat(ws[1..])
  }

  /** The words separated by single spaces. */
  function Join(ws: seq<string>): string {
    if |ws| == 0 then ""
    else if |ws| == 1 then ws[0]
    else Join(ws[..|ws| - 1]) + " " + ws[|ws| - 1]
  }

  /** Appending text after a whitespace character (or after the end of the
      string) does not move the end of the first word. */
  lemma WordLengthAppend(a: string, b: string)
    requires WordLength(a) < |a| || b == [] || IsWhitespace(b[0])
    ensures WordLength(a + b) == WordLength(a)
  {
    var m := WordLength(a);
    assert forall i :: 0 <= i < m ==> (a + b)[i] == a[i];
    if m < |a| {
      assert (a + b)[m] == a[m];
    } else if b != [] {
      assert (a + b)[m] == b[0];
    }
  }

  /** Splitting is compositional at a whitespace boundary: when the two parts
      meet at whitespace (or one is empty), no word straddles the seam. */
  lemma {:induction false} WordsAppend(a: string, b: string)
    requires a == [] || b == [] || IsWhitespace(a[|a| - 1]) || IsWhitespace(b[0])
    ensures Words(a + b) == Words(a) + Words(b)
    decreases |a|
  {
    if b == [] {
      assert a + b == a;
    } else if a == [] {
      assert a + b == b;
    } else if IsWhitespace(a[0]) {
      assert (a + b)[1..] == a[1..] + b;
      WordsAppend(a[1..], b);
    } else {
      var n := WordLength(a);
      WordLengthAppend(a, b);
      assert (a + b)[..n] == a[..n];
      assert (a + b)[n..] == a[n..] + b;
      WordsAppend(a[n..], b);
    }
  }

  /** Whitespace alone yields no words. */
  lemma {:induction false} WordsOfWhitespace(g: string)
    requires AllWhitespace(g)
    ensures Words(g) == []
  {
    if |g| > 0 {
      WordsOfWhitespace(g[1..]);
    }
  }

  /** A single word splits to itself. */
  lemma WordsOfWord(w: string)
    requires IsWord(w)
    ensures Words(w) == [w]
  {
    assert WordLength(w) == |w|;
    assert w[..|w|] == w;
    assert w[|w|..] == [];
  }

  /** Leading and trailing whitespace, of any length, changes nothing. */
  lemma WordsIgnoresSurroundingWhitespace(g: string, s: string, h: string)
    requires AllWhitespace(g) && AllWhitespace(h)
    ensures Words(g + s + h) == Words(s)
  {
    var sh := s + h;
    WordsOfWhitespace(h);
    if h != [] {
      WordsAppend(s, h);
    } else {
      assert sh == s;
    }
    assert Words(sh) == Words(s);
    WordsOfWhitespace(g);
    if g != [] {
      WordsAppend(g, sh);
    } else {
      assert g + sh == sh;
    }
    assert g + s + h == g + sh;
  }

  /** Text after a whitespace separator splits as if the separator were
      absent. */
  lemma WordsAfterSeparator(g: string, b: string)
    requires |g| > 0 && AllWhitespace(g)
    ensures Words(g + b) == Words(b)
    ensures IsWhitespace((g + b)[0])
  {
    WordsAppend(g, b);
    WordsOfWhitespace(g);
  }

  /** A separator of whitespace contributes nothing of its own: whatever its
      length and content, the words are those of the two sides. */
  lemma WordsAcrossSeparator(a: string, g: string, b: string)
    requires |g| > 0 && AllWhitespace(g)
    ensures Words(a + g + b) == Words(a) + Words(b)
  {
    WordsAfterSeparator(g, b);
    WordsAppend(a, g + b);
    assert a + g + b == a + (g + b);
  }

  /** Round trip: words joined with single spaces split back into the same
      words, in the same order. */
  lemma {:induction false} WordsOfJoin(ws: seq<string>)
    requires forall k :: 0 <= k < |ws| ==> IsWord(ws[k])
    ensures Words(Join(ws)) == ws
  {
    if |ws| == 1 {
      WordsOfWord(ws[0]);
    } else if |ws| > 1 {
      var init, last := ws[..|ws| - 1], ws[|ws| - 1];
      WordsOfJoin(init);
      WordsOfWord(last);
      WordsAcrossSeparator(Join(init), " ", last);
      assert ws == init + [last];
    }
  }

  /** Two words separated by one space split back into those two words. */
  lemma WordsOfPair(a: string, b: string)
    requires IsWord(a) && IsWord(b)
    ensures Words(a + " " + b) == [a, b]
  {
    WordsOfWord(a);
    WordsOfWord(b);
    WordsAcrossSeparator(a, " ", b);
  }

  /** Three words separated by single spaces split back into those words. */
  lemma WordsOfTriple(a: string, b: string, c: string)
    requires IsWord(a) && IsWord(b) && IsWord(c)
    ensures Words(a + " " + b + " " + c) == [a, b, c]
  {
    WordsOfPair(a, b);
    WordsOfWord(c);
    WordsAcrossSeparator(a + " " + b, " ", c);
  }

  /** A whitespace-free prefix is kept verbatim by NonWhitespace. */
  lemma {:induction false} NonWhitespacePrefix(s: string, n: nat)
    requires n <= |s|
    requires forall i :: 0 <= i < n ==> !IsWhitespace(s[i])
    ensures NonWhitespace(s) == s[..n] + NonWhitespace(s[n..])
  {
    if n > 0 {
      NonWhitespacePrefix(s[1..], n - 1);
      assert s[1..][n - 1..] == s[n..];
      assert s[..n] == [s[0]] + s[1..][..n - 1];
    }
  }

  /** Contents: the words hold exactly the non-whitespace characters of the
      input, in input order. */
  lemma {:induction false} WordsKeepContent(s: string)
    ensures Concat(Words(s)) == NonWhitespace(s)
    decreases |s|
  {
    if |s| > 0 {
      if IsWhitespace(s[0]) {
        WordsKeepContent(s[1..]);
      } else {
        var n := WordLength(s);
        WordsKeepContent(s[n..]);
        NonWhitespacePrefix(s, n);
        var ws := [s[..n]] + Words(s[n..]);
        assert ws[1..] == Words(s[n..]);
      }
    }
  }
}
