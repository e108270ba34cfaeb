/**
 The C++ string operations the HTTP modules use.  Bytes are `char`s; character classes are those of
 the "C" locale.
 */
module Text {
  import opened Wrappers

  const CRLF: string := "\r\n"
  const BLANK_LINE: string := "\r\n\r\n"

  /** `std::isspace`. */
  predicate IsSpace(c: char) {
    c == ' ' || '\t' <= c <= '\r'
  }

  /** The characters `trim` strips. */
  predicate IsBlank(c: char) {
    c == ' ' || c == '\t' || c == '\r' || c == '\n'
  }

  function Lower(c: char): char {
    if 'A' <= c <= 'Z' then c - 'A' + 'a' else c
  }

  function ToLower(s: string): (r: string)
    ensures |r| == |s|
  {
    seq(|s|, i requires 0 <= i < |s| => Lower(s[i]))
  }

  // ---------------------------------------------------------------------------------------------
  // Searching
  // ---------------------------------------------------------------------------------------------

  predicate OccursAt(s: string, pat: string, i: nat) {
    i + |pat| <= |s| && s[i..i + |pat|] == pat
  }

  /** `s.find(pat, from)`: the first occurrence at or after `from`. */
  function Find(s: string, pat: string, from: nat): (r: Option<nat>)
    ensures r.Some? ==> from <= r.value <= r.value + |pat| <= |s| && OccursAt(s, pat, r.value)
    ensures r.Some? ==> forall j :: from <= j < r.value ==> !OccursAt(s, pat, j)
    ensures r.None? ==> forall j :: from <= j ==> !OccursAt(s, pat, j)
    decreases |s| - from
  {
    if from + |pat| > |s| then None
    else if s[from..from + |pat|] == pat then Some(from)
    else Find(s, pat, from + 1)
  }

  /** `s.find(c, from)`. */
  function FindChar(s: string, c: char, from: nat): (r: Option<nat>)
    ensures r.Some? ==> from <= r.value < |s| && s[r.value] == c && c !in s[from..r.value]
    ensures r.None? && from <= |s| ==> c !in s[from..]
    decreases |s| - from
  {
    if from >= |s| then None
    else if s[from] == c then Some(from)
    else FindChar(s, c, from + 1)
  }

  /** The first occurrence does not move when text is appended. */
  lemma FindInExtension(s: string, t: string, pat: string, from: nat)
    requires Find(s, pat, from).Some?
    ensures Find(s + t, pat, from) == Find(s, pat, from)
  {
    var i := Find(s, pat, from).value;
    forall j | from <= j <= i
      ensures OccursAt(s + t, pat, j) <==> OccursAt(s, pat, j)
    {
      assert (s + t)[j..j + |pat|] == s[j..j + |pat|];
    }
  }

  lemma {:induction false} FindCharIs(s: string, c: char, from: nat, i: nat)
    requires from <= i < |s| && s[i] == c
    requires forall k :: from <= k < i ==> s[k] != c
    ensures FindChar(s, c, from) == Some(i)
    decreases i - from
  {
    if from < i {
      FindCharIs(s, c, from + 1, i);
    }
  }

  lemma FindCharAt(a: string, c: char, b: string)
    requires c !in a
    ensures FindChar(a + [c] + b, c, 0) == Some(|a|)
  {
    FindCharIs(a + [c] + b, c, 0, |a|);
  }

  // ---------------------------------------------------------------------------------------------
  // Trimming
  // ---------------------------------------------------------------------------------------------

  function TrimLeft(s: string): string {
    if s != "" && IsBlank(s[0]) then TrimLeft(s[1..]) else s
  }

  function TrimRight(s: string): string {
    if s != "" && IsBlank(s[|s| - 1]) then TrimRight(s[..|s| - 1]) else s
  }

  function Trim(s: string): string {
    TrimRight(TrimLeft(s))
  }

  predicate Trimmed(s: string) {
    s != "" ==> !IsBlank(s[0]) && !IsBlank(s[|s| - 1])
  }

  lemma {:induction false} TrimLeftSplits(s: string)
    ensures |TrimLeft(s)| <= |s| && s[|s| - |TrimLeft(s)|..] == TrimLeft(s)
    ensures TrimLeft(s) != "" ==> !IsBlank(TrimLeft(s)[0])
    ensures forall i :: 0 <= i < |s| - |TrimLeft(s)| ==> IsBlank(s[i])
  {
    if s != "" && IsBlank(s[0]) {
      var t, n := s[1..], |TrimLeft(s[1..])|;
      TrimLeftSplits(t);
      assert s[|s| - n..] == t[|t| - n..];
      assert forall i :: 0 < i < |s| - n ==> s[i] == t[i - 1];
    }
  }

  lemma {:induction false} TrimRightSplits(s: string)
    ensures |TrimRight(s)| <= |s| && s[..|TrimRight(s)|] == TrimRight(s)
    ensures TrimRight(s) != "" ==> !IsBlank(TrimRight(s)[|TrimRight(s)| - 1])
    ensures forall i :: |TrimRight(s)| <= i < |s| ==> IsBlank(s[i])
  {
    if s != "" && IsBlank(s[|s| - 1]) {
      TrimRightSplits(s[..|s| - 1]);
    }
  }

  /** `Trim` returns the part of the string between its leading and trailing blanks. */
  lemma TrimSplits(s: string) returns (i: nat, j: nat)
    ensures i <= j <= |s| && Trim(s) == s[i..j] && Trimmed(Trim(s))
    ensures forall k :: 0 <= k < i || j <= k < |s| ==> IsBlank(s[k])
  {
    var t := TrimLeft(s);
    TrimLeftSplits(s);
    TrimRightSplits(t);
    i := |s| - |t|;
    j := i + |TrimRight(t)|;
    assert s[i..j] == t[..j - i];
    if Trim(s) != "" {
      assert Trim(s)[0] == t[0];
    }
  }

  lemma TrimmedIsFixed(s: string)
    requires Trimmed(s)
    ensures Trim(s) == s
  {
  }

  lemma {:induction false} TrimLeftAppend(s: string, c: char)
    requires IsBlank(c)
    ensures TrimLeft(s + [c]) == if TrimLeft(s) == "" then "" else TrimLeft(s) + [c]
  {
    if s == "" {
      assert TrimLeft([c][1..]) == "";
      assert s + [c] == [c];
    } else {
      assert (s + [c])[1..] == s[1..] + [c];
      if IsBlank(s[0]) {
        TrimLeftAppend(s[1..], c);
      }
    }
  }

  /** A blank at either end is stripped. */
  lemma TrimIgnoresBlanks(s: string, c: char)
    requires IsBlank(c)
    ensures Trim(s + [c]) == Trim(s) && Trim([c] + s) == Trim(s)
  {
    TrimLeftAppend(s, c);
    var t := TrimLeft(s);
    assert (t + [c])[..|t|] == t;
    assert ([c] + s)[1..] == s;
  }

  // ---------------------------------------------------------------------------------------------
  // Splitting
  // ---------------------------------------------------------------------------------------------

  /** What successive `getline(stream, line, d)` calls return. */
  function Split(s: string, d: char): seq<string>
    decreases |s|
  {
    if s == "" then []
    else
      match FindChar(s, d, 0)
      case None => [s]
      case Some(i) => [s[..i]] + Split(s[i + 1..], d)
  }

  lemma SplitFirst(a: string, d: char, rest: string)
    requires d !in a
    ensures Split(a + [d] + rest, d) == [a] + Split(rest, d)
  {
    FindCharAt(a, d, rest);
    var s := a + [d] + rest;
    assert s[..|a|] == a && s[|a| + 1..] == rest;
  }

  lemma SplitLast(a: string, d: char)
    requires d !in a && a != ""
    ensures Split(a, d) == [a]
  {
    assert a[0..] == a;
    assert FindChar(a, d, 0).None?;
  }

  lemma {:induction false} SplitPieces(s: string, d: char)
    ensures forall i :: 0 <= i < |Split(s, d)| ==> d !in Split(s, d)[i]
    decreases |s|
  {
    if s != "" {
      var cut := FindChar(s, d, 0);
      if cut.Some? {
        assert s[0..cut.value] == s[..cut.value];
        SplitPieces(s[cut.value + 1..], d);
      } else {
        assert s[0..] == s;
      }
    }
  }

  // ---------------------------------------------------------------------------------------------
  // White-space separated words
  // ---------------------------------------------------------------------------------------------

  function SkipSpaces(s: string): string {
    if s != "" && IsSpace(s[0]) then SkipSpaces(s[1..]) else s
  }

  /** The length of the leading run of characters that are not white space. */
  function WordRun(s: string): (n: nat)
    ensures n <= |s| && (n < |s| ==> IsSpace(s[n]))
    ensures forall i :: 0 <= i < n ==> !IsSpace(s[i])
  {
    if s == "" || IsSpace(s[0]) then 0 else WordRun(s[1..]) + 1
  }

  /** `stream >> word`: the next word (empty when there is none) and the rest of the stream. */
  function NextWord(s: string): (string, string) {
    var t := SkipSpaces(s);
    (t[..WordRun(t)], t[WordRun(t)..])
  }

  ghost predicate IsWord(s: string) {
    s != "" && forall i :: 0 <= i < |s| ==> !IsSpace(s[i])
  }

  lemma {:induction false} WordRunIs(s: string, n: nat)
    requires n <= |s| && (n < |s| ==> IsSpace(s[n]))
    requires forall i :: 0 <= i < n ==> !IsSpace(s[i])
    ensures WordRun(s) == n
  {
    if n > 0 {
      WordRunIs(s[1..], n - 1);
    }
  }

  /** A word followed by white space or the end is the next word. */
  lemma NextWordIs(w: string, rest: string)
    requires IsWord(w) && (rest != "" ==> IsSpace(rest[0]))
    ensures NextWord(w + rest) == (w, rest)
    ensures NextWord(" " + (w + rest)) == (w, rest)
  {
    var s := w + rest;
    WordRunIs(s, |w|);
    assert s[..|w|] == w && s[|w|..] == rest;
    assert (" " + s)[1..] == s;
    assert SkipSpaces(" " + s) == SkipSpaces(s) == s;
  }

  lemma {:induction false} NextWordIsWord(s: string)
    ensures NextWord(s).0 != "" ==> IsWord(NextWord(s).0)
    ensures forall c :: c in NextWord(s).0 ==> c in s
    ensures forall c :: c in NextWord(s).1 ==> c in s
  {
    if s != "" && IsSpace(s[0]) {
      NextWordIsWord(s[1..]);
    }
  }

  // ---------------------------------------------------------------------------------------------
  // Lines ended by CRLF
  // ---------------------------------------------------------------------------------------------

  /** Every line followed by CRLF. */
  function Terminated(lines: seq<string>): string {
    if lines == [] then "" else lines[0] + CRLF + Terminated(lines[1..])
  }

  /** The header section: the last line lacks its CRLF, which belongs to the blank line. */
  function Section(lines: seq<string>): string
    requires lines != []
  {
    if |lines| == 1 then lines[0] else lines[0] + CRLF + Section(lines[1..])
  }

  ghost predicate OneLine(s: string) {
    '\n' !in s
  }

  /** Lines that a blank line cannot be confused with: no line feed, and all but the first are visibly not empty. */
  ghost predicate WellFormedLines(lines: seq<string>) {
    && lines != []
    && (forall i :: 0 <= i < |lines| ==> OneLine(lines[i]))
    && (forall i :: 0 < i < |lines| ==> lines[i] != "" && lines[i][0] != '\r')
  }

  lemma {:induction false} TerminatedIsSection(lines: seq<string>)
    requires lines != []
    ensures Terminated(lines) == Section(lines) + CRLF
  {
    if |lines| == 1 {
      assert Terminated(lines[1..]) == "";
    } else {
      TerminatedIsSection(lines[1..]);
    }
  }

  lemma {:induction false} TerminatedAppend(lines: seq<string>, line: string)
    ensures Terminated(lines + [line]) == Terminated(lines) + line + CRLF
  {
    if lines == [] {
      assert ([line])[1..] == [];
    } else {
      TerminatedAppend(lines[1..], line);
      assert (lines + [line])[1..] == lines[1..] + [line];
    }
  }

  lemma {:induction false} TerminatedConcat(a: seq<string>, b: seq<string>)
    ensures Terminated(a + b) == Terminated(a) + Terminated(b)
  {
    if a == [] {
      assert a + b == b;
    } else {
      var c := a[1..];
      TerminatedConcat(c, b);
      assert (a + b)[1..] == c + b && (a + b)[0] == a[0];
      assert a[0] + CRLF + (Terminated(c) + Terminated(b)) == a[0] + CRLF + Terminated(c) + Terminated(b);
    }
  }

  lemma NotCrlf(s: string, j: nat)
    requires j + 1 < |s| ==> s[j + 1] != '\n'
    ensures !OccursAt(s, CRLF, j)
  {
    if j + 2 <= |s| {
      assert s[j..j + 2][1] == s[j + 1];
    }
  }

  lemma NotBlankLine(s: string, j: nat)
    requires j + 2 < |s| ==> s[j] != '\r' || s[j + 1] != '\n' || s[j + 2] != '\r'
    ensures !OccursAt(s, BLANK_LINE, j)
  {
    if j + 4 <= |s| {
      var t := s[j..j + 4];
      assert t[0] == s[j] && t[1] == s[j + 1] && t[2] == s[j + 2];
    }
  }

  /** The first line of a text with CRLF inside or at its end. */
  lemma FindCrlfAfterLine(line: string, rest: string)
    requires OneLine(line)
    ensures Find(line + CRLF + rest, CRLF, 0) == Some(|line|)
  {
    var s := line + CRLF + rest;
    assert OccursAt(s, CRLF, |line|);
    forall j | 0 <= j < |line| {
      NotCrlf(s, j);
    }
  }

  lemma NoCrlfInLine(line: string)
    requires OneLine(line)
    ensures Find(line, CRLF, 0) == None
  {
    forall j: nat {
      NotCrlf(line, j);
    }
  }

  lemma {:induction false} NoEarlierBlankLine(lines: seq<string>, body: string, j: nat)
    requires WellFormedLines(lines) && j < |Section(lines)|
    ensures !OccursAt(Section(lines) + BLANK_LINE + body, BLANK_LINE, j)
  {
    var s, first := Section(lines) + BLANK_LINE + body, lines[0];
    if j <= |first| + 1 {
      if |lines| > 1 {
        assert s[|first| + 2] == Section(lines[1..])[0] == lines[1][0];
      }
      NotBlankLine(s, j);
    } else {
      var tail := Section(lines[1..]) + BLANK_LINE + body;
      assert s == first + CRLF + tail;
      NoEarlierBlankLine(lines[1..], body, j - |first| - 2);
      assert j + 4 <= |s| ==> s[j..j + 4] == tail[j - |first| - 2..j - |first| + 2];
    }
  }

  /** The blank line of a well-formed message is found right after its header section. */
  lemma FindBlankLine(lines: seq<string>, body: string)
    requires WellFormedLines(lines)
    ensures Find(Terminated(lines) + CRLF + body, BLANK_LINE, 0) == Some(|Section(lines)|)
    ensures (Terminated(lines) + CRLF + body)[..|Section(lines)|] == Section(lines)
    ensures (Terminated(lines) + CRLF + body)[|Section(lines)| + 4..] == body
  {
    TerminatedIsSection(lines);
    var s := Terminated(lines) + CRLF + body;
    assert s == Section(lines) + BLANK_LINE + body;
    assert OccursAt(s, BLANK_LINE, |Section(lines)|);
    forall j | 0 <= j < |Section(lines)| {
      NoEarlierBlankLine(lines, body, j);
    }
  }
}
