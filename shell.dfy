/** `escapeshellarg` as PHP implements it on a POSIX host, and just enough of
    a POSIX shell's word splitting (unquoted blanks, single quotes, backslash)
    to say which argument vector a command line hands to the program it runs. */
module Shell {
  import opened Wrappers

  /** The body of `escapeshellarg($s)`: every single quote becomes '\'' . */
  function QuoteBody(s: string): (r: string)
    ensures |s| <= |r|
    ensures '\'' !in s ==> r == s
  {
    if s == [] then []
    else (if s[0] == '\'' then "'\\''" else [s[0]]) + QuoteBody(s[1..])
  }

  /** `escapeshellarg($s)`: `s` wrapped in single quotes. */
  function EscapeShellArg(s: string): (r: string)
    ensures |r| >= |s| + 2 && r[0] == '\'' && r[|r| - 1] == '\''
    ensures '\'' !in s ==> r == "'" + s + "'"
  {
    "'" + QuoteBody(s) + "'"
  }

  datatype Mode = Bare | InQuotes | Escaped

  /** The state of a shell reading a command line from left to right: the
      words finished so far, the word being built, whether one is being built
      at all, and the quoting mode. */
  datatype Lexer = Lexer(words: seq<string>, word: string, inWord: bool, mode: Mode)

  const Start := Lexer([], [], false, Bare)

  function Step(l: Lexer, c: char): Lexer
  {
    match l.mode
    case InQuotes =>
      if c == '\'' then l.(mode := Bare) else l.(word := l.word + [c])
    case Escaped =>
      l.(word := l.word + [c], mode := Bare)
    case Bare =>
      if c == ' ' then
        (if l.inWord then Lexer(l.words + [l.word], [], false, Bare) else l)
      else if c == '\'' then l.(inWord := true, mode := InQuotes)
      else if c == '\\' then l.(inWord := true, mode := Escaped)
      else l.(word := l.word + [c], inWord := true)
  }

  function Run(l: Lexer, s: string): Lexer
    decreases s
  {
    if s == [] then l else Run(Step(l, s[0]), s[1..])
  }

  /** The argument vector of a command line, or None when a quote or a
      backslash is left open. */
  function Words(line: string): Option<seq<string>>
  {
    var l := Run(Start, line);
    if l.mode != Bare then None
    else Some(if l.inWord then l.words + [l.word] else l.words)
  }

  /** A line read to the end outside quotes with a word still open yields
      the finished words and that one. */
  lemma WordsAtEnd(line: string, l: Lexer)
    requires Run(Start, line) == l && l.mode == Bare && l.inWord
    ensures Words(line) == Some(l.words + [l.word])
  {
  }

  /** A chunk the shell copies into the current word as it stands. */
  predicate Plain(t: string) {
    forall i :: 0 <= i < |t| ==> t[i] != ' ' && t[i] != '\'' && t[i] != '\\'
  }

  /** Reading a line in two pieces is reading it whole. */
  lemma {:induction false} RunAppend(l: Lexer, a: string, b: string)
    ensures Run(l, a + b) == Run(Run(l, a), b)
    decreases a
  {
    if a == [] {
      assert a + b == b;
    } else {
      assert (a + b)[0] == a[0];
      assert (a + b)[1..] == a[1..] + b;
      RunAppend(Step(l, a[0]), a[1..], b);
    }
  }

  /** A plain chunk read outside quotes is copied into the current word. */
  lemma {:induction false} RunPlain(l: Lexer, t: string)
    requires l.mode == Bare && Plain(t)
    ensures Run(l, t) == l.(word := l.word + t, inWord := l.inWord || t != [])
    decreases t
  {
    if t != [] {
      assert Plain(t[1..]);
      RunPlain(Step(l, t[0]), t[1..]);
      assert l.word + [t[0]] + t[1..] == l.word + t;
    }
  }

  /** A blank after a word ends it. */
  lemma RunBlank(l: Lexer)
    requires l.mode == Bare && l.inWord
    ensures Run(l, " ") == Lexer(l.words + [l.word], [], false, Bare)
  {
  }

  /** Inside single quotes, the quoted body of `s` adds exactly `s` to the
      word and leaves the shell inside the quotes. */
  lemma {:induction false} RunQuoteBody(l: Lexer, s: string)
    requires l.mode == InQuotes && l.inWord
    ensures Run(l, QuoteBody(s)) == l.(word := l.word + s)
    decreases s
  {
    if s == [] {
    } else {
      var head := if s[0] == '\'' then "'\\''" else [s[0]];
      var l' := l.(word := l.word + [s[0]]);
      assert QuoteBody(s) == head + QuoteBody(s[1..]);
      RunAppend(l, head, QuoteBody(s[1..]));
      if s[0] == '\'' {
        assert Run(l, head) == l' by {
          var l1 := Step(l, '\'');
          var l2 := Step(l1, '\\');
          var l3 := Step(l2, '\'');
          assert Step(l3, '\'') == l';
          assert Run(l, head) == Run(l1, head[1..]);
          assert Run(l1, head[1..]) == Run(l2, head[2..]);
          assert Run(l2, head[2..]) == Run(l3, head[3..]);
          assert Run(l3, head[3..]) == Run(l', []);
        }
      } else {
        assert Run(l, head) == Run(l', []);
      }
      RunQuoteBody(l', s[1..]);
      assert l.word + [s[0]] + s[1..] == l.word + s;
    }
  }

  /** Reading an escaped argument outside quotes appends exactly that
      argument to the current word, whatever characters it holds. */
  lemma {:induction false} RunEscaped(l: Lexer, s: string)
    requires l.mode == Bare
    ensures Run(l, EscapeShellArg(s)) == l.(word := l.word + s, inWord := true)
  {
    var l1 := l.(inWord := true, mode := InQuotes);
    RunAppend(l, "'", QuoteBody(s) + "'");
    assert Run(l, "'") == Run(l1, []);
    assert "'" + QuoteBody(s) + "'" == "'" + (QuoteBody(s) + "'");
    RunAppend(l1, QuoteBody(s), "'");
    RunQuoteBody(l1, s);
  }

  /** A blank ends the current word and a plain chunk starts the next. */
  lemma BlankThen(l: Lexer, t: string)
    requires l.mode == Bare && l.inWord && t != [] && Plain(t)
    ensures Run(l, " " + t) == Lexer(l.words + [l.word], t, true, Bare)
  {
    RunBlank(l);
    RunAppend(l, " ", t);
    RunPlain(Lexer(l.words + [l.word], [], false, Bare), t);
    assert [] + t == t;
  }

  /** A plain, non-empty word followed by a blank, read between words,
      becomes the next argument; the result is the lexer after it. */
  lemma RunToken(l: Lexer, t: string) returns (l': Lexer)
    requires l.mode == Bare && !l.inWord && l.word == []
    requires t != [] && Plain(t)
    ensures l' == Lexer(l.words + [t], [], false, Bare)
    ensures Run(l, t + " ") == l'
  {
    RunAppend(l, t, " ");
    RunPlain(l, t);
    assert [] + t == t;
    RunBlank(l.(word := t, inWord := true));
    l' := Lexer(l.words + [t], [], false, Bare);
  }
}
