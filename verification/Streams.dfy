/** The part of `std::istringstream` the client uses: `>>` into a string and `getline`. */
module Streams {

  predicate IsSpace(c: char) {
    c == ' ' || 9 <= c as int <= 13
  }

  /** White space by its codes: space, tab, newline, vertical tab, form feed, return. */
  lemma SpaceCodes(c: char)
    ensures IsSpace(c) <==> c as int in {0x20, 0x09, 0x0A, 0x0B, 0x0C, 0x0D}
  {
  }

  function SkipSpaces(s: string): string {
    if s != "" && IsSpace(s[0]) then SkipSpaces(s[1..]) else s
  }

  /** The leading characters that are not white space. */
  function WordOf(s: string): (w: string)
    ensures |w| <= |s| && s[..|w|] == w
  {
    if s == "" || IsSpace(s[0]) then "" else [s[0]] + WordOf(s[1..])
  }

  /** What `>>` extracts. At the end of the text that is the empty string. */
  function Token(s: string): string {
    WordOf(SkipSpaces(s))
  }

  function AfterToken(s: string): string {
    SkipSpaces(s)[|Token(s)|..]
  }

  /** What `getline` extracts. */
  function LineOf(s: string): (l: string)
    ensures |l| <= |s| && s[..|l|] == l
  {
    if s == "" || s[0] == '\n' then "" else [s[0]] + LineOf(s[1..])
  }

  /** The text behind the newline that `getline` removes. */
  function AfterLine(s: string): string {
    if |LineOf(s)| < |s| then s[|LineOf(s)| + 1..] else ""
  }

  /** A text that `>>` can read back: not empty and free of white space. */
  predicate Clean(w: string) {
    w != "" && forall i :: 0 <= i < |w| ==> !IsSpace(w[i])
  }

  lemma {:induction false} WordRead(w: string, tail: string)
    requires forall i :: 0 <= i < |w| ==> !IsSpace(w[i])
    requires tail == "" || IsSpace(tail[0])
    ensures WordOf(w + tail) == w
  {
    if w == "" {
      assert w + tail == tail;
    } else {
      assert (w + tail)[1..] == w[1..] + tail;
      WordRead(w[1..], tail);
    }
  }

  lemma TokenRead(w: string, tail: string)
    requires Clean(w)
    requires tail == "" || IsSpace(tail[0])
    ensures Token(w + tail) == w && AfterToken(w + tail) == tail
  {
    WordRead(w, tail);
    assert SkipSpaces(w + tail) == w + tail;
  }

  lemma {:induction false} SpacesSkipped(spaces: string, s: string)
    requires (forall i :: 0 <= i < |spaces| ==> IsSpace(spaces[i])) && (s == "" || !IsSpace(s[0]))
    ensures SkipSpaces(spaces + s) == s
  {
    if spaces == "" {
      assert spaces + s == s;
    } else {
      assert (spaces + s)[1..] == spaces[1..] + s;
      SpacesSkipped(spaces[1..], s);
    }
  }

  /** Whatever white space stands before a word, and however much, the word is found, and
      what follows it is left. */
  lemma TokenMeaning(spaces: string, w: string, tail: string)
    requires (forall i :: 0 <= i < |spaces| ==> IsSpace(spaces[i])) && Clean(w)
    requires tail == "" || IsSpace(tail[0])
    ensures Token(spaces + w + tail) == w && AfterToken(spaces + w + tail) == tail
  {
    assert spaces + w + tail == spaces + (w + tail);
    SpacesSkipped(spaces, w + tail);
    WordRead(w, tail);
  }

  /** Nothing but white space: no word, and nothing left. */
  lemma NoToken(spaces: string)
    requires forall i :: 0 <= i < |spaces| ==> IsSpace(spaces[i])
    ensures Token(spaces) == "" && AfterToken(spaces) == ""
  {
    assert spaces + "" == spaces;
    SpacesSkipped(spaces, "");
  }

  /** The next word after a single separating space. */
  lemma NextToken(w: string, tail: string)
    requires Clean(w)
    requires tail == "" || IsSpace(tail[0])
    ensures Token(" " + w + tail) == w && AfterToken(" " + w + tail) == tail
  {
    TokenRead(w, tail);
    assert (" " + w + tail)[1..] == w + tail;
  }

  lemma {:induction false} LineRead(l: string, tail: string)
    requires forall i :: 0 <= i < |l| ==> l[i] != '\n'
    ensures LineOf(l + "\n" + tail) == l
  {
    if l == "" {
      assert l + "\n" + tail == "\n" + tail;
    } else {
      assert (l + "\n" + tail)[1..] == l[1..] + "\n" + tail;
      LineRead(l[1..], tail);
    }
  }

  /** Without a newline the whole text is the line. */
  lemma {:induction false} LastLineRead(l: string)
    requires forall i :: 0 <= i < |l| ==> l[i] != '\n'
    ensures LineOf(l) == l && AfterLine(l) == ""
  {
    if l != "" {
      LastLineRead(l[1..]);
    }
  }

  /** One more character of a line. */
  lemma LineTaken(start: string, line: string, text: string)
    requires text != "" && text[0] != '\n'
    requires |line| <= |start| && text == start[|line|..] && line + LineOf(text) == LineOf(start)
    ensures text[1..] == start[|line| + 1..]
    ensures line + [text[0]] + LineOf(text[1..]) == LineOf(start)
  {
    assert line + ([text[0]] + LineOf(text[1..])) == line + [text[0]] + LineOf(text[1..]);
  }

  /** The end of a line. */
  lemma LineDone(start: string, line: string, text: string)
    requires text == "" || text[0] == '\n'
    requires |line| <= |start| && text == start[|line|..] && line + LineOf(text) == LineOf(start)
    ensures line == LineOf(start) && AfterLine(start) == if text == "" then "" else text[1..]
  {
    assert line + "" == line;
  }

  /** A string stream: the text not yet extracted. */
  class InputStream {
    var text: string

    constructor (s: string)
      ensures text == s
    {
      text := s;
    }

    /** `stream >> word` */
    method Extract() returns (word: string)
      modifies this
      ensures word == Token(old(text)) && text == AfterToken(old(text))
    {
      while text != "" && IsSpace(text[0])
        invariant SkipSpaces(text) == SkipSpaces(old(text))
        decreases |text|
      {
        text := text[1..];
      }
      ghost var start := text;
      word := "";
      while text != "" && !IsSpace(text[0])
        invariant word + WordOf(text) == WordOf(start)
        invariant |word| <= |start| && text == start[|word|..]
        decreases |text|
      {
        assert word + ([text[0]] + WordOf(text[1..])) == word + [text[0]] + WordOf(text[1..]);
        word := word + [text[0]];
        text := text[1..];
      }
    }

    /** `std::getline(stream, line)` */
    method ExtractLine() returns (line: string)
      modifies this
      ensures line == LineOf(old(text)) && text == AfterLine(old(text))
    {
      ghost var start := text;
      line := "";
      while text != "" && text[0] != '\n'
        invariant line + LineOf(text) == LineOf(start)
        invariant |line| <= |start| && text == start[|line|..]
        decreases |text|
      {
        LineTaken(start, line, text);
        line := line + [text[0]];
        text := text[1..];
      }
      LineDone(start, line, text);
      if text != "" {
        text := text[1..];
      }
    }
  }
}
