/**
 * Character classes and string operations used by the tag extractor:
 * the whitespace that separates document tokens, the line terminators that
 * separate stop-word lines, and the per-token normalisation
 * `replaceAll("[^a-zA-Z]", "").toLowerCase()`.
 */
module Text {

  /** `Character.isWhitespace`: the characters the default `Scanner` delimiter is made of. */
  predicate IsWhitespace(c: char) {
    || ('\t' <= c <= '\r')                   // tab, line feed, vertical tab, form feed, carriage return
    || ('\U{1C}' <= c <= '\U{1F}')           // file, group, record and unit separators
    || c == ' ' || c == '\U{1680}'
    || ('\U{2000}' <= c <= '\U{2006}') || ('\U{2008}' <= c <= '\U{200A}')
    || c == '\U{2028}' || c == '\U{2029}' || c == '\U{205F}' || c == '\U{3000}'
  }

  /** The characters `Scanner.nextLine` ends a line at (`\r\n` counts as one terminator). */
  predicate IsLineTerminator(c: char) {
    c == '\n' || c == '\r' || c == '\U{85}' || c == '\U{2028}' || c == '\U{2029}'
  }

  /** The character class `[a-zA-Z]`. */
  predicate IsAsciiLetter(c: char) {
    ('a' <= c <= 'z') || ('A' <= c <= 'Z')
  }

  /** A string made only of lower-case ASCII letters, possibly empty: the shape of every tag. */
  predicate IsTagWord(s: string) {
    forall i :: 0 <= i < |s| ==> 'a' <= s[i] <= 'z'
  }

  /** A string with no upper-case ASCII letter. */
  predicate NoAsciiUpper(s: string) {
    forall i :: 0 <= i < |s| ==> !('A' <= s[i] <= 'Z')
  }

  function LowerChar(c: char): char {
    if 'A' <= c <= 'Z' then (c as int + 32) as char else c
  }

  /** `toLowerCase` restricted to ASCII: maps `A`-`Z` to `a`-`z` and leaves every other character alone. */
  function Lower(s: string): string {
    seq(|s|, i requires 0 <= i < |s| => LowerChar(s[i]))
  }

  lemma LowerSpec(s: string)
    ensures |Lower(s)| == |s|
    ensures NoAsciiUpper(Lower(s))
    ensures Lower(Lower(s)) == Lower(s)
    ensures Lower(s) == [] <==> s == []
    ensures forall i :: 0 <= i < |s| && !('A' <= s[i] <= 'Z') ==> Lower(s)[i] == s[i]
    ensures forall i :: 0 <= i < |s| && 'A' <= s[i] <= 'Z' ==> Lower(s)[i] == (s[i] as int + 32) as char
  {
  }

  /** A word followed by characters that are not letters normalises to the word, lower-cased. */
  lemma KeepLettersOfWordThenMarks(word: string, marks: string)
    requires forall i :: 0 <= i < |word| ==> IsAsciiLetter(word[i])
    requires forall i :: 0 <= i < |marks| ==> !IsAsciiLetter(marks[i])
    ensures KeepLetters(word + marks) == word
  {
    KeepLettersAppend(word, marks);
    KeepLettersOfLetters(word);
    assert KeepLetters(marks) == [];
  }

  /** `replaceAll("[^a-zA-Z]", "")`: deletes every character outside `[a-zA-Z]`. */
  function KeepLetters(s: string): (r: string)
    ensures |r| <= |s|
    ensures forall i :: 0 <= i < |r| ==> IsAsciiLetter(r[i])
    ensures r == [] <==> forall i :: 0 <= i < |s| ==> !IsAsciiLetter(s[i])
  {
    if s == [] then []
    else if IsAsciiLetter(s[0]) then [s[0]] + KeepLetters(s[1..])
    else
      var r := KeepLetters(s[1..]);
      assert forall i :: 1 <= i < |s| ==> s[i] == s[1..][i - 1];
      r
  }

  /** The filter distributes over concatenation: it works character by character, in order. */
  lemma {:induction false} KeepLettersAppend(a: string, b: string)
    ensures KeepLetters(a + b) == KeepLetters(a) + KeepLetters(b)
    decreases |a|
  {
    if a == [] {
      assert a + b == b;
    } else {
      assert (a + b)[0] == a[0];
      assert (a + b)[1..] == a[1..] + b;
      KeepLettersAppend(a[1..], b);
    }
  }

  /** A string already made of letters passes the filter unchanged. */
  lemma {:induction false} KeepLettersOfLetters(s: string)
    requires forall i :: 0 <= i < |s| ==> IsAsciiLetter(s[i])
    ensures KeepLetters(s) == s
    decreases |s|
  {
    if s != [] {
      KeepLettersOfLetters(s[1..]);
    }
  }

  /** The normalised form of a document token (`TagExtractorGUI.java` line 95). */
  function Normalize(token: string): (w: string)
    ensures IsTagWord(w)
    ensures |w| <= |token|
    ensures w == [] <==> forall i :: 0 <= i < |token| ==> !IsAsciiLetter(token[i])
  {
    Lower(KeepLetters(token))
  }

  /** Normalising twice is normalising once. */
  lemma NormalizeIdempotent(token: string)
    ensures Normalize(Normalize(token)) == Normalize(token)
  {
    var w := Normalize(token);
    KeepLettersOfLetters(w);
  }

  /** The words `Normalize` can produce are exactly the tag words: each one is its own normal form. */
  lemma NormalizeOnto(w: string)
    ensures IsTagWord(w) <==> Normalize(w) == w
  {
    if IsTagWord(w) {
      KeepLettersOfLetters(w);
    }
  }

  /** Normalising a token is normalising its pieces and concatenating. */
  lemma NormalizeAppend(a: string, b: string)
    ensures Normalize(a + b) == Normalize(a) + Normalize(b)
  {
    KeepLettersAppend(a, b);
  }

  /** Length of the run of non-whitespace characters that starts `s`. */
  function WordLength(s: string): (n: nat)
    requires s != [] && !IsWhitespace(s[0])
    ensures 1 <= n <= |s|
    ensures forall i :: 0 <= i < n ==> !IsWhitespace(s[i])
    ensures n == |s| || IsWhitespace(s[n])
  {
    if |s| == 1 || IsWhitespace(s[1]) then 1
    else
      var n := 1 + WordLength(s[1..]);
      assert forall i :: 1 <= i < n ==> s[i] == s[1..][i - 1];
      n
  }

  /** The tokens `Scanner.next` returns: the maximal runs of non-whitespace characters, in order. */
  function Tokens(s: string): seq<string>
    decreases |s|
  {
    if s == [] then []
    else if IsWhitespace(s[0]) then Tokens(s[1..])
    else
      var n := WordLength(s);
      [s[..n]] + Tokens(s[n..])
  }

  /** A token is never empty and never holds whitespace. */
  lemma {:induction false} TokensAreWords(s: string)
    ensures forall k :: 0 <= k < |Tokens(s)| ==> Tokens(s)[k] != []
    ensures forall k, i :: 0 <= k < |Tokens(s)| && 0 <= i < |Tokens(s)[k]| ==> !IsWhitespace(Tokens(s)[k][i])
    decreases |s|
  {
    if s == [] {
    } else if IsWhitespace(s[0]) {
      TokensAreWords(s[1..]);
    } else {
      var n := WordLength(s);
      TokensAreWords(s[n..]);
      assert Tokens(s) == [s[..n]] + Tokens(s[n..]);
    }
  }

  /** Whitespace before a document does not change its tokens. */
  lemma {:induction false} TokensSkipWhitespace(ws: string, s: string)
    requires forall i :: 0 <= i < |ws| ==> IsWhitespace(ws[i])
    ensures Tokens(ws + s) == Tokens(s)
    decreases |ws|
  {
    if ws != [] {
      assert (ws + s)[1..] == ws[1..] + s;
      TokensSkipWhitespace(ws[1..], s);
    } else {
      assert ws + s == s;
    }
  }

  /** A word followed by a whitespace character is the first token, and the rest is tokenised on its own. */
  lemma WordThenRest(w: string, c: char, rest: string)
    requires w != [] && forall i :: 0 <= i < |w| ==> !IsWhitespace(w[i])
    requires IsWhitespace(c)
    ensures Tokens(w + [c] + rest) == [w] + Tokens(rest)
  {
    var s := w + [c] + rest;
    WordLengthOf(w, [c] + rest);
    assert s[..|w|] == w;
    assert s[|w|..] == [c] + rest;
    assert ([c] + rest)[1..] == rest;
  }

  lemma {:induction false} WordLengthOf(w: string, tail: string)
    requires w != [] && forall i :: 0 <= i < |w| ==> !IsWhitespace(w[i])
    requires tail != [] && IsWhitespace(tail[0])
    ensures WordLength(w + tail) == |w|
    decreases |w|
  {
    if |w| > 1 {
      assert (w + tail)[1..] == w[1..] + tail;
      WordLengthOf(w[1..], tail);
    }
  }

  /** A word with no whitespace in it is a single token. */
  lemma {:induction false} TokensOfWord(w: string)
    requires w != [] && forall i :: 0 <= i < |w| ==> !IsWhitespace(w[i])
    ensures Tokens(w) == [w]
  {
    assert WordLength(w) == |w|;
    assert w[..|w|] == w && w[|w|..] == [];
  }

  /** Joins words with one space between each two: a document the tokens could have come from. */
  function JoinWords(words: seq<string>): string {
    if words == [] then []
    else if |words| == 1 then words[0]
    else words[0] + [' '] + JoinWords(words[1..])
  }

  /** Tokenising words joined by spaces gives the words back. */
  lemma {:induction false} TokensOfJoinWords(words: seq<string>)
    requires forall k :: 0 <= k < |words| ==> words[k] != []
    requires forall k, i :: 0 <= k < |words| && 0 <= i < |words[k]| ==> !IsWhitespace(words[k][i])
    ensures Tokens(JoinWords(words)) == words
  {
    if |words| == 1 {
      TokensOfWord(words[0]);
    } else if |words| > 1 {
      WordThenRest(words[0], ' ', JoinWords(words[1..]));
      TokensOfJoinWords(words[1..]);
    }
  }

  /** Length of the line that starts `s`: the characters before the first line terminator. */
  function LineLength(s: string): (n: nat)
    ensures n <= |s|
    ensures forall i :: 0 <= i < n ==> !IsLineTerminator(s[i])
    ensures n < |s| ==> IsLineTerminator(s[n])
  {
    if s == [] || IsLineTerminator(s[0]) then 0
    else
      var n := 1 + LineLength(s[1..]);
      assert forall i :: 1 <= i < n ==> s[i] == s[1..][i - 1];
      n
  }

  /** Number of characters of the terminator at `s[n]`: two for `\r\n`, one otherwise, none at the end. */
  function TerminatorLength(s: string, n: nat): nat
    requires n <= |s|
  {
    if n == |s| then 0
    else if s[n] == '\r' && n + 1 < |s| && s[n + 1] == '\n' then 2
    else 1
  }

  /**
   * The lines `Scanner.nextLine` returns, in order. A final terminator does not
   * start one more line; an empty line between two terminators is the line `""`.
   */
  function Lines(s: string): (lines: seq<string>)
    ensures forall k, i :: 0 <= k < |lines| && 0 <= i < |lines[k]| ==> !IsLineTerminator(lines[k][i])
    decreases |s|
  {
    if s == [] then []
    else
      var n := LineLength(s);
      [s[..n]] + Lines(s[n + TerminatorLength(s, n)..])
  }

  /** What `println` writes for each line: the line then the platform line separator `sep`. */
  function Render(lines: seq<string>, sep: string): string {
    if lines == [] then [] else lines[0] + sep + Render(lines[1..], sep)
  }

  predicate IsLineSeparator(sep: string) {
    sep == "\n" || sep == "\r\n"
  }

  /** Reading back, line by line, what was written with `println` gives the written lines. */
  lemma {:induction false} LinesOfRender(lines: seq<string>, sep: string)
    requires IsLineSeparator(sep)
    requires forall k, i :: 0 <= k < |lines| && 0 <= i < |lines[k]| ==> !IsLineTerminator(lines[k][i])
    ensures Lines(Render(lines, sep)) == lines
  {
    if lines != [] {
      var line, rest := lines[0], Render(lines[1..], sep);
      var s := line + sep + rest;
      assert s == line + (sep + rest);
      LineLengthOf(line, sep + rest);
      assert s[..|line|] == line;
      assert TerminatorLength(s, |line|) == |sep|;
      assert s[|line| + |sep|..] == rest;
      LinesOfRender(lines[1..], sep);
    }
  }

  lemma {:induction false} LineLengthOf(line: string, tail: string)
    requires forall i :: 0 <= i < |line| ==> !IsLineTerminator(line[i])
    requires tail != [] && IsLineTerminator(tail[0])
    ensures LineLength(line + tail) == |line|
    decreases |line|
  {
    if line == [] {
      assert line + tail == tail;
    } else {
      assert (line + tail)[1..] == line[1..] + tail;
      LineLengthOf(line[1..], tail);
    }
  }
}
