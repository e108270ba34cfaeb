/** The configuration tokenizer and text layout (src/config/config_parser.cpp, stage 1). */
module ConfigTokens {
  import opened Text

  datatype Kind = Word | LBrace | RBrace | Semicolon

  datatype Lexeme = Lexeme(kind: Kind, value: string)

  datatype Token = Token(lexeme: Lexeme, line: int)

  const OPEN := Lexeme(LBrace, "{")
  const CLOSE := Lexeme(RBrace, "}")
  const SEMI := Lexeme(Semicolon, ";")

  function W(value: string): Lexeme {
    Lexeme(Word, value)
  }

  function Lexemes(ts: seq<Token>): (ls: seq<Lexeme>)
    ensures |ls| == |ts|
  {
    seq(|ts|, i requires 0 <= i < |ts| => ts[i].lexeme)
  }

  predicate IsSymbol(c: char) {
    c == '{' || c == '}' || c == ';'
  }

  predicate IsWordChar(c: char) {
    !IsSpace(c) && !IsSymbol(c) && c != '#'
  }

  function SymbolOf(c: char): Lexeme
    requires IsSymbol(c)
  {
    if c == '{' then OPEN else if c == '}' then CLOSE else SEMI
  }

  /** The length of the word at the start of `s`. */
  function WordLength(s: string): (n: nat)
    ensures n <= |s| && (n < |s| ==> !IsWordChar(s[n]))
    ensures forall i :: 0 <= i < n ==> IsWordChar(s[i])
  {
    if s != "" && IsWordChar(s[0]) then WordLength(s[1..]) + 1 else 0
  }

  /** The length of the rest of the line at the start of `s`. */
  function LineLength(s: string): (n: nat)
    ensures n <= |s| && (n < |s| ==> s[n] == '\n')
    ensures forall i :: 0 <= i < n ==> s[i] != '\n'
  {
    if s != "" && s[0] != '\n' then LineLength(s[1..]) + 1 else 0
  }

  function Tokenize(s: string, line: int): seq<Token>
    decreases |s|
  {
    if s == "" then []
    else if s[0] == '\n' then Tokenize(s[1..], line + 1)
    else if IsSpace(s[0]) then Tokenize(s[1..], line)
    else if s[0] == '#' then Tokenize(s[LineLength(s)..], line)
    else if IsSymbol(s[0]) then [Token(SymbolOf(s[0]), line)] + Tokenize(s[1..], line)
    else [Token(W(s[..WordLength(s)]), line)] + Tokenize(s[WordLength(s)..], line)
  }

  lemma TokenizeFirst(s: string, line: int)
    requires s != ""
    ensures
      Tokenize(s, line) ==
      if s[0] == '\n' then Tokenize(s[1..], line + 1)
      else if IsSpace(s[0]) then Tokenize(s[1..], line)
      else if s[0] == '#' then Tokenize(s[LineLength(s)..], line)
      else if IsSymbol(s[0]) then [Token(SymbolOf(s[0]), line)] + Tokenize(s[1..], line)
      else [Token(W(s[..WordLength(s)]), line)] + Tokenize(s[WordLength(s)..], line)
  {
  }

  lemma AppendFirst(tokens: seq<Token>, t: Token, rest: seq<Token>)
    ensures tokens + ([t] + rest) == (tokens + [t]) + rest
  {
  }

  /** The scanner: `i` and `line` advance over the input. */
  method TokenizeText(input: string) returns (tokens: seq<Token>)
    ensures tokens == Tokenize(input, 1)
  {
    tokens := [];
    var i, line := 0, 1;
    while i < |input|
      invariant 0 <= i <= |input|
      invariant tokens + Tokenize(input[i..], line) == Tokenize(input, 1)
      decreases |input| - i
    {
      var c := input[i];
      TokenizeFirst(input[i..], line);
      assert input[i..][0] == c && input[i..][1..] == input[i + 1..];
      hide Tokenize, WordLength, LineLength;
      if c == '\n' {
        line := line + 1;
        i := i + 1;
      } else if IsSpace(c) {
        i := i + 1;
      } else if c == '#' {
        i := SkipLine(input, i);
      } else if IsSymbol(c) {
        AppendFirst(tokens, Token(SymbolOf(c), line), Tokenize(input[i + 1..], line));
        tokens := tokens + [Token(SymbolOf(c), line)];
        i := i + 1;
      } else {
        var word;
        word, i := ReadWord(input, i);
        AppendFirst(tokens, Token(W(word), line), Tokenize(input[i..], line));
        if word != "" {
          tokens := tokens + [Token(W(word), line)];
        }
      }
    }
  }

  method SkipLine(input: string, from: nat) returns (i: nat)
    requires from < |input| && input[from] != '\n'
    ensures from < i <= |input| && i == from + LineLength(input[from..])
    ensures input[i..] == input[from..][LineLength(input[from..])..]
  {
    i := from;
    while i < |input| && input[i] != '\n'
      invariant from <= i <= |input|
      invariant LineLength(input[from..]) == i - from + LineLength(input[i..])
    {
      assert input[i..][1..] == input[i + 1..];
      i := i + 1;
    }
  }

  method ReadWord(input: string, from: nat) returns (word: string, i: nat)
    requires from < |input| && IsWordChar(input[from])
    ensures from < i <= |input| && i == from + WordLength(input[from..])
    ensures word == input[from..][..WordLength(input[from..])]
    ensures input[i..] == input[from..][WordLength(input[from..])..]
  {
    word, i := "", from;
    while i < |input| && !IsSpace(input[i]) && input[i] != '{' && input[i] != '}' && input[i] != ';' && input[i] != '#'
      invariant from <= i <= |input| && word == input[from..i]
      invariant WordLength(input[from..]) == i - from + WordLength(input[i..])
    {
      WordGoesOn(input, i);
      SliceGrows(input, from, i);
      hide *;
      word := word + [input[i]];
      i := i + 1;
    }
    SliceOfRest(input, from, i);
  }

  lemma SliceGrows(s: string, from: nat, i: nat)
    requires from <= i < |s|
    ensures s[from..i] + [s[i]] == s[from..i + 1]
  {
  }

  lemma SliceOfRest(s: string, from: nat, i: nat)
    requires from <= i <= |s|
    ensures s[from..][..i - from] == s[from..i] && s[from..][i - from..] == s[i..]
  {
  }

  lemma WordGoesOn(input: string, i: nat)
    requires i < |input| && IsWordChar(input[i])
    ensures WordLength(input[i..]) == 1 + WordLength(input[i + 1..])
  {
    assert input[i..][1..] == input[i + 1..];
  }

  // ---------------------------------------------------------------------------------------------
  // Layout
  // ---------------------------------------------------------------------------------------------

  ghost predicate IsConfigWord(w: string) {
    w != "" && forall i :: 0 <= i < |w| ==> IsWordChar(w[i])
  }

  ghost predicate GoodLexeme(l: Lexeme) {
    match l.kind
    case Word => IsConfigWord(l.value)
    case LBrace => l == OPEN
    case RBrace => l == CLOSE
    case Semicolon => l == SEMI
  }

  ghost predicate GoodLexemes(ls: seq<Lexeme>) {
    forall i :: 0 <= i < |ls| ==> GoodLexeme(ls[i])
  }

  /** White space and comments between two tokens; a comment runs to the end of its line. */
  ghost predicate IsGap(g: string)
    decreases |g|
  {
    g == ""
    || (IsSpace(g[0]) && IsGap(g[1..]))
    || (g[0] == '#' && LineLength(g) < |g| && IsGap(g[LineLength(g)..]))
  }

  /** After the last token a comment may also run to the end of the text. */
  ghost predicate IsTail(g: string)
    decreases |g|
  {
    g == ""
    || (IsSpace(g[0]) && IsTail(g[1..]))
    || (g[0] == '#' && IsTail(g[LineLength(g)..]))
  }

  /** The text of the tokens with a gap before each of them. */
  function Render(ls: seq<Lexeme>, gaps: seq<string>, tail: string): string
    requires |gaps| == |ls|
    decreases |ls|
  {
    if ls == [] then tail else gaps[0] + ls[0].value + Render(ls[1..], gaps[1..], tail)
  }

  /** The gaps are gaps, and two neighbouring words are not glued together. */
  ghost predicate GoodLayout(ls: seq<Lexeme>, gaps: seq<string>, tail: string) {
    && |gaps| == |ls| && IsTail(tail)
    && (forall i :: 0 <= i < |gaps| ==> IsGap(gaps[i]))
    && (forall i :: 0 < i < |ls| && ls[i - 1].kind == Word && ls[i].kind == Word ==> gaps[i] != "")
  }

  function Newlines(s: string): nat {
    if s == "" then 0 else (if s[0] == '\n' then 1 else 0) + Newlines(s[1..])
  }

  /** The tokens of a rendered text: only their lines depend on the gaps. */
  function Placed(ls: seq<Lexeme>, gaps: seq<string>, line: int): seq<Token>
    requires |gaps| == |ls|
    decreases |ls|
  {
    if ls == [] then []
    else [Token(ls[0], line + Newlines(gaps[0]))] + Placed(ls[1..], gaps[1..], line + Newlines(gaps[0]))
  }

  lemma {:induction false} LineLengthExtends(g: string, rest: string)
    requires LineLength(g) < |g|
    ensures LineLength(g + rest) == LineLength(g) && Newlines(g[LineLength(g)..]) == Newlines(g)
  {
    if g[0] != '\n' {
      LineLengthExtends(g[1..], rest);
      assert (g + rest)[1..] == g[1..] + rest;
      assert g[LineLength(g)..] == g[1..][LineLength(g[1..])..];
    }
  }

  lemma {:induction false} SkipGap(g: string, rest: string, line: int)
    requires IsGap(g)
    ensures Tokenize(g + rest, line) == Tokenize(rest, line + Newlines(g))
    decreases |g|
  {
    if g == "" {
      assert g + rest == rest;
    } else if IsSpace(g[0]) {
      assert (g + rest)[1..] == g[1..] + rest;
      SkipGap(g[1..], rest, if g[0] == '\n' then line + 1 else line);
    } else {
      var n := LineLength(g);
      LineLengthExtends(g, rest);
      assert (g + rest)[n..] == g[n..] + rest;
      SkipGap(g[n..], rest, line);
    }
  }

  lemma {:induction false} SkipTail(g: string, line: int)
    requires IsTail(g)
    ensures Tokenize(g, line) == []
    decreases |g|
  {
    if g != "" {
      if IsSpace(g[0]) {
        SkipTail(g[1..], if g[0] == '\n' then line + 1 else line);
      } else {
        SkipTail(g[LineLength(g)..], line);
      }
    }
  }

  lemma {:induction false} WordLengthIs(w: string, rest: string)
    requires (forall i :: 0 <= i < |w| ==> IsWordChar(w[i])) && (rest != "" ==> !IsWordChar(rest[0]))
    ensures WordLength(w + rest) == |w|
  {
    if w != "" {
      WordLengthIs(w[1..], rest);
      assert (w + rest)[1..] == w[1..] + rest;
    } else {
      assert w + rest == rest;
    }
  }

  lemma FirstToken(l: Lexeme, rest: string, line: int)
    requires GoodLexeme(l) && (l.kind == Word && rest != "" ==> !IsWordChar(rest[0]))
    ensures Tokenize(l.value + rest, line) == [Token(l, line)] + Tokenize(rest, line)
  {
    var s, v := l.value + rest, l.value;
    if l.kind == Word {
      WordLengthIs(v, rest);
      assert IsWordChar(s[0]);
      assert s[..|v|] == v && s[|v|..] == rest;
    } else {
      assert s[1..] == rest;
    }
  }

  /** What follows a word in a rendered text cannot belong to it. */
  lemma RenderedStart(ls: seq<Lexeme>, gaps: seq<string>, tail: string)
    requires GoodLexemes(ls) && GoodLayout(ls, gaps, tail)
    requires ls != [] && ls[0].kind == Word ==> gaps[0] != ""
    ensures Render(ls, gaps, tail) != "" ==> !IsWordChar(Render(ls, gaps, tail)[0])
  {
    if ls != [] {
      assert GoodLexeme(ls[0]) && IsGap(gaps[0]);
    }
  }

  /** Rendering and tokenizing: the tokens come back, on the lines where the gaps put them. */
  lemma {:induction false} TokenizeRendered(ls: seq<Lexeme>, gaps: seq<string>, tail: string, line: int)
    requires GoodLexemes(ls) && GoodLayout(ls, gaps, tail)
    ensures Tokenize(Render(ls, gaps, tail), line) == Placed(ls, gaps, line)
    decreases |ls|
  {
    hide *;
    if ls == [] {
      NothingRendered(ls, gaps, tail, line);
    } else {
      RestIsGood(ls, gaps, tail);
      var rest := Render(ls[1..], gaps[1..], tail);
      var at := line + Newlines(gaps[0]);
      if ls[0].kind == Word {
        RenderedStart(ls[1..], gaps[1..], tail);
      }
      RenderFirst(ls, gaps, tail);
      PlacedFirst(ls, gaps, line);
      SkipGap(gaps[0], ls[0].value + rest, line);
      FirstToken(ls[0], rest, at);
      TokenizeRendered(ls[1..], gaps[1..], tail, at);
    }
  }

  lemma NothingRendered(ls: seq<Lexeme>, gaps: seq<string>, tail: string, line: int)
    requires ls == [] && GoodLayout(ls, gaps, tail)
    ensures |gaps| == |ls| && Tokenize(Render(ls, gaps, tail), line) == Placed(ls, gaps, line)
  {
    SkipTail(tail, line);
  }

  lemma RenderFirst(ls: seq<Lexeme>, gaps: seq<string>, tail: string)
    requires ls != [] && |gaps| == |ls|
    ensures Render(ls, gaps, tail) == gaps[0] + (ls[0].value + Render(ls[1..], gaps[1..], tail))
  {
    Reassociate(gaps[0], ls[0].value, Render(ls[1..], gaps[1..], tail));
  }

  lemma Reassociate(a: string, b: string, c: string)
    ensures (a + b) + c == a + (b + c)
  {
  }

  lemma PlacedFirst(ls: seq<Lexeme>, gaps: seq<string>, line: int)
    requires ls != [] && |gaps| == |ls|
    ensures
      var at := line + Newlines(gaps[0]);
      Placed(ls, gaps, line) == [Token(ls[0], at)] + Placed(ls[1..], gaps[1..], at)
  {
  }

  lemma RestIsGood(ls: seq<Lexeme>, gaps: seq<string>, tail: string)
    requires ls != [] && GoodLexemes(ls) && GoodLayout(ls, gaps, tail)
    ensures GoodLexeme(ls[0]) && |gaps| == |ls| && IsGap(gaps[0])
    ensures GoodLexemes(ls[1..]) && GoodLayout(ls[1..], gaps[1..], tail)
    ensures ls[0].kind == Word && |ls| > 1 && ls[1].kind == Word ==> gaps[1] != ""
  {
  }

  lemma {:induction false} PlacedLexemes(ls: seq<Lexeme>, gaps: seq<string>, line: int)
    requires |gaps| == |ls|
    ensures Lexemes(Placed(ls, gaps, line)) == ls
    decreases |ls|
  {
    if ls != [] {
      var at := line + Newlines(gaps[0]);
      PlacedLexemes(ls[1..], gaps[1..], at);
      var rest := Placed(ls[1..], gaps[1..], at);
      assert Lexemes([Token(ls[0], at)] + rest) == [ls[0]] + Lexemes(rest);
    }
  }

  /** Layout invariance: gaps change only line numbers. */
  lemma LayoutIsInvisible(ls: seq<Lexeme>, gaps: seq<string>, tail: string, line: int)
    requires GoodLexemes(ls) && GoodLayout(ls, gaps, tail)
    ensures Lexemes(Tokenize(Render(ls, gaps, tail), line)) == ls
  {
    TokenizeRendered(ls, gaps, tail, line);
    PlacedLexemes(ls, gaps, line);
  }

  // ---------------------------------------------------------------------------------------------
  // Every text is a layout of its tokens
  // ---------------------------------------------------------------------------------------------

  /** Text in front of the first token goes to the first gap, or to the tail when there is no token. */
  function Before(p: string, gaps: seq<string>): seq<string> {
    if gaps == [] then [] else [p + gaps[0]] + gaps[1..]
  }

  lemma RenderBefore(p: string, ls: seq<Lexeme>, gaps: seq<string>, tail: string)
    requires |gaps| == |ls|
    ensures Render(ls, Before(p, gaps), if ls == [] then p + tail else tail) == p + Render(ls, gaps, tail)
  {
    if ls != [] {
      assert Before(p, gaps)[0] == p + gaps[0] && Before(p, gaps)[1..] == gaps[1..];
      var rest := ls[0].value + Render(ls[1..], gaps[1..], tail);
      RenderFirst(ls, Before(p, gaps), tail);
      RenderFirst(ls, gaps, tail);
      hide Render, Before;
      Reassociate(p, gaps[0], rest);
    }
  }

  lemma SpaceBefore(c: char, ls: seq<Lexeme>, gaps: seq<string>, tail: string)
    requires IsSpace(c) && GoodLayout(ls, gaps, tail)
    ensures GoodLayout(ls, Before([c], gaps), if ls == [] then [c] + tail else tail)
  {
    if ls == [] {
      assert ([c] + tail)[1..] == tail;
    } else {
      assert ([c] + gaps[0])[1..] == gaps[0];
    }
  }

  lemma {:induction false} LineLengthAppend(p: string, rest: string)
    requires (forall i :: 0 <= i < |p| ==> p[i] != '\n') && (rest != "" ==> rest[0] == '\n')
    ensures LineLength(p + rest) == |p| && (p + rest)[|p|..] == rest
  {
    if p != "" {
      LineLengthAppend(p[1..], rest);
      assert (p + rest)[1..] == p[1..] + rest;
    } else {
      assert p + rest == rest;
    }
  }

  lemma CommentBefore(p: string, ls: seq<Lexeme>, gaps: seq<string>, tail: string)
    requires p != "" && p[0] == '#' && (forall i :: 0 <= i < |p| ==> p[i] != '\n')
    requires GoodLexemes(ls) && GoodLayout(ls, gaps, tail)
    requires Render(ls, gaps, tail) != "" ==> Render(ls, gaps, tail)[0] == '\n'
    ensures GoodLayout(ls, Before(p, gaps), if ls == [] then p + tail else tail)
  {
    if ls == [] {
      LineLengthAppend(p, tail);
    } else {
      assert GoodLexeme(ls[0]);
      assert gaps[0] != "" && gaps[0][0] == Render(ls, gaps, tail)[0];
      LineLengthAppend(p, gaps[0]);
    }
  }

  lemma TokenFirst(l: Lexeme, ls: seq<Lexeme>, gaps: seq<string>, tail: string)
    requires GoodLexeme(l) && GoodLexemes(ls) && GoodLayout(ls, gaps, tail)
    requires l.kind == Word && Render(ls, gaps, tail) != "" ==> !IsWordChar(Render(ls, gaps, tail)[0])
    ensures GoodLexemes([l] + ls) && GoodLayout([l] + ls, [""] + gaps, tail)
    ensures Render([l] + ls, [""] + gaps, tail) == l.value + Render(ls, gaps, tail)
  {
    assert ([l] + ls)[1..] == ls && ([""] + gaps)[1..] == gaps;
    if l.kind == Word && ls != [] && ls[0].kind == Word {
      assert GoodLexeme(ls[0]);
      WordNeedsGap(ls, gaps, tail);
    }
  }

  lemma WordNeedsGap(ls: seq<Lexeme>, gaps: seq<string>, tail: string)
    requires |gaps| == |ls| && ls != [] && GoodLexeme(ls[0]) && ls[0].kind == Word
    requires !IsWordChar(Render(ls, gaps, tail)[0])
    ensures gaps[0] != ""
  {
  }

  lemma LexemesOfFirst(t: Token, ts: seq<Token>)
    ensures Lexemes([t] + ts) == [t.lexeme] + Lexemes(ts)
  {
  }

  /** `s` is its tokens laid out with these gaps. */
  ghost predicate LaidOut(s: string, line: int, gaps: seq<string>, tail: string) {
    var ls := Lexemes(Tokenize(s, line));
    GoodLexemes(ls) && GoodLayout(ls, gaps, tail) && s == Render(ls, gaps, tail)
  }

  /** Skipped text goes into the first gap. */
  lemma SkippedIsLaidOut(p: string, rest: string, s: string, line: int, next: int, gaps: seq<string>, tail: string)
    requires LaidOut(rest, next, gaps, tail) && s == p + rest && Tokenize(s, line) == Tokenize(rest, next)
    requires (p != "" && p[0] == '#' && (forall i :: 0 <= i < |p| ==> p[i] != '\n') && (rest != "" ==> rest[0] == '\n'))
             || (|p| == 1 && IsSpace(p[0]))
    ensures
      var ls := Lexemes(Tokenize(rest, next));
      LaidOut(s, line, Before(p, gaps), if ls == [] then p + tail else tail)
  {
    var ls := Lexemes(Tokenize(rest, next));
    assert |gaps| == |ls|;
    hide Tokenize, Render, GoodLayout, GoodLexemes, Before, IsSpace;
    if |p| == 1 && IsSpace(p[0]) {
      assert p == [p[0]];
      SpaceBefore(p[0], ls, gaps, tail);
    } else {
      CommentBefore(p, ls, gaps, tail);
    }
    RenderBefore(p, ls, gaps, tail);
  }

  /** A token goes in front, with an empty gap. */
  lemma TokenIsLaidOut(l: Lexeme, rest: string, s: string, line: int, gaps: seq<string>, tail: string)
    requires LaidOut(rest, line, gaps, tail) && GoodLexeme(l) && s == l.value + rest
    requires Tokenize(s, line) == [Token(l, line)] + Tokenize(rest, line)
    requires l.kind == Word && rest != "" ==> !IsWordChar(rest[0])
    ensures LaidOut(s, line, [""] + gaps, tail)
  {
    hide Tokenize, Render, GoodLayout, GoodLexemes, GoodLexeme, IsWordChar;
    LexemesOfFirst(Token(l, line), Tokenize(rest, line));
    TokenFirst(l, Lexemes(Tokenize(rest, line)), gaps, tail);
  }

  lemma FirstLexeme(s: string, line: int) returns (l: Lexeme, n: nat)
    requires s != "" && !IsSpace(s[0]) && s[0] != '#'
    ensures 0 < n <= |s| && GoodLexeme(l) && s == l.value + s[n..]
    ensures Tokenize(s, line) == [Token(l, line)] + Tokenize(s[n..], line)
    ensures l.kind == Word && s[n..] != "" ==> !IsWordChar(s[n..][0])
  {
    TokenizeFirst(s, line);
    if IsSymbol(s[0]) {
      l, n := SymbolOf(s[0]), 1;
      assert s == [s[0]] + s[1..];
    } else {
      n := WordLength(s);
      l := W(s[..n]);
      assert s == s[..n] + s[n..];
    }
    hide Tokenize, WordLength;
  }

  /** Completeness of layouts: every text is its own tokens, laid out with some gaps. */
  lemma EveryTextIsALayout(s: string, line: int) returns (gaps: seq<string>, tail: string)
    ensures GoodLexemes(Lexemes(Tokenize(s, line))) && GoodLayout(Lexemes(Tokenize(s, line)), gaps, tail)
    ensures s == Render(Lexemes(Tokenize(s, line)), gaps, tail)
  {
    gaps, tail := LayOut(s, line);
  }

  lemma NothingIsLaidOut(line: int)
    ensures LaidOut("", line, [], "")
  {
  }

  lemma CommentIsLine(s: string)
    requires s != "" && s[0] == '#'
    ensures
      var p, rest := s[..LineLength(s)], s[LineLength(s)..];
      && s == p + rest && p != "" && p[0] == '#' && |rest| < |s|
      && (forall i :: 0 <= i < |p| ==> p[i] != '\n') && (rest != "" ==> rest[0] == '\n')
  {
  }

  lemma {:induction false} LayOut(s: string, line: int) returns (gaps: seq<string>, tail: string)
    ensures LaidOut(s, line, gaps, tail)
    decreases |s|
  {
    if s == "" {
      gaps, tail := [], "";
      NothingIsLaidOut(line);
      hide *;
    } else {
      TokenizeFirst(s, line);
      hide LaidOut, Tokenize, WordLength, LineLength, IsWordChar, GoodLexeme, Lexemes;
      if IsSpace(s[0]) {
        var next := if s[0] == '\n' then line + 1 else line;
        gaps, tail := LayOut(s[1..], next);
        SkippedIsLaidOut(s[..1], s[1..], s, line, next, gaps, tail);
        gaps, tail := Before(s[..1], gaps), if Lexemes(Tokenize(s[1..], next)) == [] then s[..1] + tail else tail;
      } else if s[0] == '#' {
        var p, rest := s[..LineLength(s)], s[LineLength(s)..];
        CommentIsLine(s);
        gaps, tail := LayOut(rest, line);
        SkippedIsLaidOut(p, rest, s, line, line, gaps, tail);
        gaps, tail := Before(p, gaps), if Lexemes(Tokenize(rest, line)) == [] then p + tail else tail;
      } else {
        var l, n := FirstLexeme(s, line);
        gaps, tail := LayOut(s[n..], line);
        TokenIsLaidOut(l, s[n..], s, line, gaps, tail);
        gaps := [""] + gaps;
      }
    }
  }
}
